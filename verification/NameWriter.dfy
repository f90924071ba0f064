/** The byte writers and the compressing DNS name writer of the mDNS component,
    as functions on memory, and the proof that written names read back. */
module NameWriter {
  import opened Octets
  import opened NameReader

  /** MDNS_MAX_PACKET_SIZE. */
  const PACKET := 1460
  /** Memory after the packet that memcmp and the reader may look at. */
  const SLACK := 256

  /** Memory, write index and return value after an append. */
  datatype Out = Out(mem: seq<byte>, index: nat, ret: nat)

  ghost predicate Memory(mem: seq<byte>) {
    |mem| >= PACKET + SLACK
  }

  /** `_mdns_append_u8`. */
  function AppendU8(mem: seq<byte>, index: nat, value: byte): (r: Out)
    requires Memory(mem)
    ensures Memory(r.mem)
  {
    if index >= PACKET then Out(mem, index, 0) else Out(Put(mem, index, [value]), index + 1, 1)
  }

  /** `_mdns_append_u16`. */
  function AppendU16(mem: seq<byte>, index: nat, value: nat): (r: Out)
    requires Memory(mem)
    ensures Memory(r.mem)
  {
    if index + 1 >= PACKET then Out(mem, index, 0) else Out(Put(mem, index, U16(value)), index + 2, 2)
  }

  /** `_mdns_append_u32`. */
  function AppendU32(mem: seq<byte>, index: nat, value: nat): (r: Out)
    requires Memory(mem)
    ensures Memory(r.mem)
  {
    if index + 3 >= PACKET then Out(mem, index, 0) else Out(Put(mem, index, U32(value)), index + 4, 4)
  }

  /** `_mdns_set_u16`. */
  function SetU16(mem: seq<byte>, index: nat, value: nat): (r: seq<byte>)
    requires Memory(mem)
    ensures |r| == |mem|
  {
    if index + 1 >= PACKET then mem else Put(mem, index, U16(value))
  }

  /** The length byte of a C string: strlen cut to eight bits. */
  function Len8(s: seq<byte>): byte {
    |s| % 256
  }

  /** `_mdns_append_string`. The returned byte count is eight bits wide too. */
  function AppendString(mem: seq<byte>, index: nat, s: seq<byte>): (r: Out)
    requires Memory(mem)
    ensures Memory(r.mem) && |r.mem| == |mem|
    ensures index <= PACKET ==> r.index <= PACKET
  {
    var len := Len8(s);
    if index + len + 1 >= PACKET then Out(mem, index, 0)
    else Out(Put(mem, index, [len] + s[..len]), index + len + 1, (len + 1) % 256)
  }

  /** The earlier occurrence at loc spells exactly the strings, by the reader's account. */
  predicate Accepts(mem: seq<byte>, loc: nat, strings: seq<seq<byte>>)
    requires Memory(mem) && loc < PACKET && strings != []
  {
    var len := Len8(strings[0]);
    && mem[loc] == len
    && mem[loc + 1..loc + 1 + len] == strings[0][..len]
    && var r := Read(mem, PACKET, loc, loc, EMPTY_NAME);
       && r.0.Some?
       && r.1.parts == |strings|
       && forall i :: 0 <= i < |strings| ==> EqNoCase(strings[i], r.1.fields[i])
  }

  /** The first accepted occurrence in from..index. */
  function FindMatch(mem: seq<byte>, from: nat, index: nat, strings: seq<seq<byte>>): (r: Option<nat>)
    requires Memory(mem) && index <= PACKET && strings != []
    ensures r.Some? ==> from <= r.value < index && Accepts(mem, r.value, strings)
    ensures r.None? ==> forall k :: from <= k < index ==> !Accepts(mem, k, strings)
    ensures r.Some? ==> forall k :: from <= k < r.value ==> !Accepts(mem, k, strings)
    decreases index - from
  {
    if from >= index then None
    else if Accepts(mem, from, strings) then Some(from)
    else FindMatch(mem, from + 1, index, strings)
  }

  /** The first two bits of a compression pointer, MDNS_NAME_REF. */
  const NAME_REF := 0xC000

  /** `_mdns_append_fqdn`. */
  function Append(mem: seq<byte>, index: nat, strings: seq<seq<byte>>): (r: Out)
    requires Memory(mem) && index <= PACKET
    ensures Memory(r.mem) && r.index <= PACKET && |r.mem| == |mem|
    decreases |strings|
  {
    if strings == [] then AppendU8(mem, index, 0)
    else
      match FindMatch(mem, 0, index, strings)
      case Some(loc) => AppendU16(mem, index, NAME_REF + loc)
      case None =>
        var w := AppendString(mem, index, strings[0]);
        if w.ret == 0 then w
        else
          var r := Append(w.mem, w.index, strings[1..]);
          Out(r.mem, r.index, (w.ret + r.ret) % 0x1_0000)
  }

  // ---------------------------------------------------------------------
  // Frame and return value.

  /** Nothing below the index is changed, nor anything at or above the new index. */
  lemma {:induction false} AppendFrame(mem: seq<byte>, index: nat, strings: seq<seq<byte>>)
    requires Memory(mem) && index <= PACKET
    ensures var r := Append(mem, index, strings);
      && index <= r.index
      && Same(mem, r.mem, 0, index)
      && Same(mem, r.mem, r.index, |mem|)
    decreases |strings|
  {
    hide Accepts, FindMatch, Put, U16;
    if strings != [] && FindMatch(mem, 0, index, strings).None? {
      var w := AppendString(mem, index, strings[0]);
      if w.ret != 0 {
        AppendFrame(w.mem, w.index, strings[1..]);
      }
    }
  }

  ghost function WrittenMax(strings: seq<seq<byte>>): nat {
    if strings == [] then 2 else 1 + |strings[0]| + WrittenMax(strings[1..])
  }

  lemma StringReturnsAdvance(mem: seq<byte>, index: nat, s: seq<byte>)
    requires Memory(mem) && |s| < 255
    ensures var w := AppendString(mem, index, s);
      w.ret == w.index - index && (w.ret == 0 || (w.ret == |s| + 1 && w.index < PACKET))
  {
  }

  /** The return value is the index advance unless a length of 255 wraps to nothing;
      this is so even when a later part found no room. */
  lemma {:induction false} AppendReturnsAdvance(mem: seq<byte>, index: nat, strings: seq<seq<byte>>)
    requires Memory(mem) && index <= PACKET
    requires forall i :: 0 <= i < |strings| ==> |strings[i]| < 255
    ensures var r := Append(mem, index, strings); r.ret == r.index - index <= WrittenMax(strings)
    decreases |strings|
  {
    hide Accepts, FindMatch, Put, AppendString;
    if strings != [] && FindMatch(mem, 0, index, strings).None? {
      var w := AppendString(mem, index, strings[0]);
      StringReturnsAdvance(mem, index, strings[0]);
      if w.ret != 0 {
        AppendReturnsAdvance(w.mem, w.index, strings[1..]);
        var r := Append(w.mem, w.index, strings[1..]);
        assert (w.ret + r.ret) % 0x1_0000 == w.ret + r.ret;
      }
    }
  }

  // ---------------------------------------------------------------------
  // Round trip.

  ghost predicate LabelSized(s: seq<byte>) {
    1 <= |s| <= 63 && NulFree(s)
  }

  /** One to four ordinary labels, the second of which looks like a service or is the domain. */
  ghost predicate GoodName(strings: seq<seq<byte>>) {
    && 1 <= |strings| <= 4
    && (forall i :: 0 <= i < |strings| ==> LabelSized(strings[i]) && !EqNoCase(strings[i], SUB))
    && (|strings| > 1 ==> strings[1][0] == UNDERSCORE || EqNoCase(strings[1], LOCAL))
  }

  /** The two bytes at hole are a length field that is filled in later; this value stands
      for no such field. */
  const NO_HOLE := PACKET

  /** Agreement below hi except on the length field that is still to be filled in. */
  ghost predicate Kept(a: seq<byte>, b: seq<byte>, hi: nat, hole: nat) {
    hi <= |a| && hi <= |b| && forall k :: 0 <= k < hi && k != hole && k != hole + 1 ==> a[k] == b[k]
  }

  /** The earlier name at loc lies wholly in final bytes below index. */
  ghost predicate Settled(mem: seq<byte>, loc: nat, index: nat, hole: nat)
    requires Memory(mem)
  {
    forall k: int :: Touches(mem, PACKET, loc, loc, k) ==> 0 <= k < index && k != hole && k != hole + 1
  }

  /** The name begun at start is written in full from index on, and a pointer, if one
      is used, refers to a settled name that begins before this one. */
  ghost predicate Whole(mem: seq<byte>, start: nat, index: nat, strings: seq<seq<byte>>, hole: nat)
    requires Memory(mem) && index <= PACKET
    decreases |strings|
  {
    if strings == [] then index < PACKET
    else
      match FindMatch(mem, 0, index, strings)
      case Some(loc) => index + 1 < PACKET && loc < start && Settled(mem, loc, index, hole)
      case None =>
        var w := AppendString(mem, index, strings[0]);
        w.ret != 0 && Whole(w.mem, start, w.index, strings[1..], hole)
  }

  /** The tokens that the written name consists of. */
  ghost function Spelling(mem: seq<byte>, start: nat, index: nat, strings: seq<seq<byte>>, hole: nat): seq<Token>
    requires Memory(mem) && index <= PACKET && Whole(mem, start, index, strings, hole)
    decreases |strings|
  {
    if strings == [] then []
    else
      match FindMatch(mem, 0, index, strings)
      case Some(loc) =>
        ReadIsFold(mem, PACKET, loc, loc, EMPTY_NAME);
        [Hop] + Decode(mem, PACKET, loc, loc).value.tokens
      case None =>
        var w := AppendString(mem, index, strings[0]);
        [Label(strings[0])] + Spelling(w.mem, start, w.index, strings[1..], hole)
  }

  /** Any memory that keeps the written bytes decodes to the spelling, and the decoder
      stops exactly at the new write index. */
  lemma {:induction false} DecodeWritten(mem: seq<byte>, start: nat, index: nat, strings: seq<seq<byte>>,
                                         hole: nat, later: seq<byte>, size: nat)
    requires Memory(mem) && index <= PACKET && start <= index && Whole(mem, start, index, strings, hole)
    requires hole + 2 <= start || hole == NO_HOLE
    requires forall i :: 0 <= i < |strings| ==> LabelSized(strings[i])
    requires var r := Append(mem, index, strings); r.index <= size < |later| && Kept(r.mem, later, r.index, hole)
    ensures Decode(later, size, start, index)
         == Some(Spelled(Spelling(mem, start, index, strings, hole), Append(mem, index, strings).index))
    decreases |strings|
  {
    hide Accepts, FindMatch, Settled, Decode, AppendString, LabelSized, Put, U16, U32;
    var r := Append(mem, index, strings);
    AppendFrame(mem, index, strings);
    if strings == [] {
      EndWritten(mem, start, index, hole, later, size);
    } else {
      var m := FindMatch(mem, 0, index, strings);
      if m.Some? {
        AcceptedDecodes(mem, m.value, strings);
        PointerWritten(mem, start, index, m.value, hole, later, size);
      } else {
        var w := AppendString(mem, index, strings[0]);
        AppendFrame(w.mem, w.index, strings[1..]);
        assert Same(w.mem, later, index, w.index);
        StringWritten(mem, index, strings[0], later);
        DecodeWritten(w.mem, start, w.index, strings[1..], hole, later, size);
        LabelDecodes(later, size, start, index, strings[0]);
      }
    }
  }

  /** A label written at index stands there, length first. */
  lemma StringWritten(mem: seq<byte>, index: nat, s: seq<byte>, later: seq<byte>)
    requires Memory(mem) && LabelSized(s)
    requires var w := AppendString(mem, index, s); w.ret != 0 && Same(w.mem, later, index, w.index)
    ensures var w := AppendString(mem, index, s);
      w.index == index + 1 + |s| <= |later| && later[index] == |s| && later[index + 1..w.index] == s
  {
    var w := AppendString(mem, index, s);
    var written := [Len8(s)] + s[..Len8(s)];
    assert forall k :: index <= k < w.index ==> later[k] == written[k - index];
  }

  lemma EndDecodes(mem: seq<byte>, size: nat, start: nat, index: nat)
    requires index < size < |mem| && mem[index] == 0
    ensures Decode(mem, size, start, index) == Some(Spelled([], index + 1))
  {
  }

  lemma LabelDecodes(mem: seq<byte>, size: nat, start: nat, index: nat, s: seq<byte>)
    requires index + 1 + |s| <= size < |mem| && LabelSized(s)
    requires mem[index] == |s| && mem[index + 1..index + 1 + |s|] == s
    requires Decode(mem, size, start, index + 1 + |s|).Some?
    ensures var rest := Decode(mem, size, start, index + 1 + |s|).value;
      Decode(mem, size, start, index) == Some(Spelled([Label(s)] + rest.tokens, rest.next))
  {
  }

  lemma AcceptedDecodes(mem: seq<byte>, loc: nat, strings: seq<seq<byte>>)
    requires Memory(mem) && loc < PACKET && strings != [] && Accepts(mem, loc, strings)
    ensures Decode(mem, PACKET, loc, loc).Some?
  {
    ReadIsFold(mem, PACKET, loc, loc, EMPTY_NAME);
  }

  lemma PointerBits(loc: nat)
    requires loc < PACKET
    ensures U16(NAME_REF + loc)[0] >= 0xC0
    ensures 256 * ((U16(NAME_REF + loc)[0] as int) % 64) + U16(NAME_REF + loc)[1] == loc
  {
    var h := loc / 256;
    assert h < 6 && loc == 256 * h + loc % 256;
    assert (NAME_REF + loc) / 256 == 0xC0 + h;
    assert (NAME_REF + loc) % 256 == loc % 256;
  }

  /** A pointer written at index leads to the settled name at loc. */
  lemma PointerDecodes(mem: seq<byte>, start: nat, index: nat, loc: nat, hole: nat, later: seq<byte>, size: nat)
    requires Memory(mem) && index + 1 < PACKET && loc < start <= index && Settled(mem, loc, index, hole)
    requires Decode(mem, PACKET, loc, loc).Some?
    requires index + 2 <= size < |later| && Kept(mem, later, index, hole)
    requires later[index] == U16(NAME_REF + loc)[0] && later[index + 1] == U16(NAME_REF + loc)[1]
    ensures Decode(later, size, start, index)
         == Some(Spelled([Hop] + Decode(mem, PACKET, loc, loc).value.tokens, index + 2))
  {
    PointerBits(loc);
    assert Target(later, index) == loc;
    DecodeFrame(mem, PACKET, later, size, loc, loc, loc);
  }

  /** ... once the writer has put it there. */
  lemma PointerWritten(mem: seq<byte>, start: nat, index: nat, loc: nat, hole: nat, later: seq<byte>, size: nat)
    requires Memory(mem) && index + 1 < PACKET && loc < start <= index && Settled(mem, loc, index, hole)
    requires hole + 2 <= start || hole == NO_HOLE
    requires Decode(mem, PACKET, loc, loc).Some?
    requires var r := AppendU16(mem, index, NAME_REF + loc); r.index <= size < |later| && Kept(r.mem, later, r.index, hole)
    ensures Decode(later, size, start, index)
         == Some(Spelled([Hop] + Decode(mem, PACKET, loc, loc).value.tokens, index + 2))
  {
    hide Decode, Settled, U16;
    PointerStands(mem, index, loc, hole, later);
    PointerDecodes(mem, start, index, loc, hole, later, size);
  }

  lemma EndWritten(mem: seq<byte>, start: nat, index: nat, hole: nat, later: seq<byte>, size: nat)
    requires Memory(mem) && index < PACKET && (hole + 2 <= index || hole == NO_HOLE)
    requires var r := AppendU8(mem, index, 0); r.index <= size < |later| && Kept(r.mem, later, r.index, hole)
    ensures Decode(later, size, start, index) == Some(Spelled([], index + 1))
  {
    EndDecodes(later, size, start, index);
  }

  /** The name structure after the first k strings were stored. */
  ghost predicate Holds(n: Name, strings: seq<seq<byte>>, k: nat) {
    && WellFormed(n) && k <= |strings| && n.parts == k && !n.invalid
    && (forall i :: 0 <= i < k ==> n.fields[i] == strings[i])
    && (k == 0 ==> n == EMPTY_NAME)
  }

  ghost predicate FieldsMatch(n: Name, strings: seq<seq<byte>>) {
    && |n.fields| == FIELDS && n.parts == |strings| <= FIELDS
    && forall i :: 0 <= i < |strings| ==> EqNoCase(strings[i], n.fields[i])
  }

  /** A plain label of the name goes to the next field. */
  lemma StorePlain(n: Name, strings: seq<seq<byte>>, k: nat)
    requires GoodName(strings) && k < |strings| && WellFormed(n) && n.parts == k && !n.invalid
    ensures Store(n, strings[k]) == n.(fields := n.fields[k := strings[k]], parts := k + 1)
  {
    CStrOfNulFree(strings[k]);
    assert LabelSized(strings[k]);
  }

  /** The host field never shrinks once a part is stored. */
  lemma {:induction false} HostGrows(ts: seq<Token>, n: Name)
    requires WellFormed(n) && GoodTokens(ts) && n.parts >= 1
    ensures Fold(ts, n).parts >= n.parts && |Fold(ts, n).fields[0]| >= |n.fields[0]|
  {
    if ts != [] {
      HostGrows(ts[1..], Step(ts[0], n));
    }
  }

  /** Folding the same tokens into a name that already holds k parts does to the
      following fields what it does to a fresh name, as long as the fresh name's
      host is not extended and everything fits in four parts. */
  lemma {:induction false} FoldShift(ts: seq<Token>, t: Name, a: Name, k: nat)
    requires WellFormed(t) && WellFormed(a) && GoodTokens(ts)
    requires 1 <= k && 1 <= t.parts && a.parts == k + t.parts && |t.fields[0]| < FIELD - 1 && !t.invalid
    requires a.invalid ==> a.parts == FIELDS
    requires forall j :: 0 <= j < t.parts ==> a.fields[k + j] == t.fields[j]
    requires var r := Fold(ts, t); r.parts + k <= FIELDS && |r.fields[0]| == |t.fields[0]|
    ensures var r, s := Fold(ts, t), Fold(ts, a);
      && s.parts == k + r.parts
      && (forall j :: 0 <= j < r.parts ==> s.fields[k + j] == r.fields[j])
      && (forall i :: 0 <= i < k ==> s.fields[i] == a.fields[i])
      && (t.sub == a.sub ==> r.sub == s.sub)
  {
    if ts != [] {
      var t', a' := Step(ts[0], t), Step(ts[0], a);
      HostGrows(ts[1..], t');
      if ts[0].Label? {
        ShiftStep(ts[0].text, t, a, k);
      }
      FoldShift(ts[1..], t', a', k);
    }
  }

  /** One label of FoldShift. */
  lemma ShiftStep(word: seq<byte>, t: Name, a: Name, k: nat)
    requires WellFormed(t) && WellFormed(a) && 0 < |word| <= 63
    requires 1 <= k && 1 <= t.parts && a.parts == k + t.parts && |t.fields[0]| < FIELD - 1 && !t.invalid
    requires a.invalid ==> a.parts == FIELDS
    requires forall j :: 0 <= j < t.parts ==> a.fields[k + j] == t.fields[j]
    requires var r := Store(Enter(t), word); r.parts + k <= FIELDS && |r.fields[0]| <= |t.fields[0]|
    ensures var r, s := Store(Enter(t), word), Store(Enter(a), word);
      && s.parts == k + r.parts && (s.invalid ==> s.parts == FIELDS)
      && !r.invalid && |r.fields[0]| == |t.fields[0]|
      && (forall j :: 0 <= j < r.parts ==> s.fields[k + j] == r.fields[j])
      && (forall i :: 0 <= i < k ==> s.fields[i] == a.fields[i])
      && (t.sub == a.sub ==> r.sub == s.sub)
  {
    assert |Concat(t.fields[0], [DOT])| > |t.fields[0]|;
  }

  /** What folding the spelling yields: the strings, part by part. */
  lemma {:induction false} FoldSpelling(mem: seq<byte>, start: nat, index: nat, strings: seq<seq<byte>>, hole: nat,
                                        k: nat, n: Name)
    requires Memory(mem) && index <= PACKET && GoodName(strings) && Holds(n, strings, k)
    requires Whole(mem, start, index, strings[k..], hole)
    ensures GoodTokens(Spelling(mem, start, index, strings[k..], hole))
    ensures FieldsMatch(Fold(Spelling(mem, start, index, strings[k..], hole), n), strings)
    decreases |strings| - k
  {
    var rest := strings[k..];
    var ts := Spelling(mem, start, index, rest, hole);
    if rest == [] {
      assert k == |strings|;
    } else {
      assert rest[0] == strings[k] && rest[1..] == strings[k + 1..];
      var m := FindMatch(mem, 0, index, rest);
      if m.Some? {
        FoldMatch(mem, m.value, strings, k, n);
        assert ts[1..] == Decode(mem, PACKET, m.value, m.value).value.tokens;
      } else {
        var w := AppendString(mem, index, rest[0]);
        StorePlain(n, strings, k);
        var n' := Store(n, strings[k]);
        FoldSpelling(w.mem, start, w.index, strings, hole, k + 1, n');
        assert ts[1..] == Spelling(w.mem, start, w.index, strings[k + 1..], hole);
        assert LabelSized(strings[k]);
        assert ts[0] == Label(strings[k]);
      }
    }
  }

  /** The same labels folded into a fresh name and into one that holds k parts. */
  lemma FoldTail(ts: seq<Token>, strings: seq<seq<byte>>, k: nat, n: Name)
    requires GoodName(strings) && 1 <= k < |strings| && Holds(n, strings, k)
    requires GoodTokens(ts) && ts != [] && ts[0] == Label(strings[k])
    requires var r := Fold(ts, EMPTY_NAME);
      r.parts == |strings| - k && EqNoCase(strings[k], r.fields[0])
    ensures var r, s := Fold(ts, EMPTY_NAME), Fold(ts, n);
      && s.parts == |strings|
      && (forall i :: 0 <= i < r.parts ==> s.fields[k + i] == r.fields[i])
      && (forall i :: 0 <= i < k ==> s.fields[i] == strings[i])
      && (!n.sub ==> s.sub == r.sub)
  {
    hide EqNoCase, Reserved;
    assert LabelSized(strings[k]);
    CStrOfNulFree(strings[k]);
    var t, a := Store(EMPTY_NAME, strings[k]), Store(n, strings[k]);
    StoreFresh(strings, k);
    StorePlain(n, strings, k);
    assert |strings[k]| == |Fold(ts, EMPTY_NAME).fields[0]| by { SameLength(strings[k], Fold(ts, EMPTY_NAME).fields[0]); }
    HostGrows(ts[1..], t);
    FoldShift(ts[1..], t, a, k);
  }

  lemma SameLength(a: seq<byte>, b: seq<byte>)
    requires EqNoCase(a, b)
    ensures |a| == |b|
  {
  }

  /** A plain label makes a fresh name's host. */
  lemma StoreFresh(strings: seq<seq<byte>>, k: nat)
    requires GoodName(strings) && k < |strings|
    ensures Store(EMPTY_NAME, strings[k]) == EMPTY_NAME.(fields := [strings[k], [], [], []], parts := 1)
  {
    CStrOfNulFree(strings[k]);
    assert LabelSized(strings[k]);
  }

  /** The tail of the name taken over from an accepted occurrence. */
  lemma FoldMatch(mem: seq<byte>, loc: nat, strings: seq<seq<byte>>, k: nat, n: Name)
    requires Memory(mem) && loc < PACKET && GoodName(strings) && k < |strings| && Holds(n, strings, k)
    requires Accepts(mem, loc, strings[k..])
    ensures Decode(mem, PACKET, loc, loc).Some?
    ensures var ts := Decode(mem, PACKET, loc, loc).value.tokens;
      GoodTokens(ts) && FieldsMatch(Fold(ts, n), strings)
  {
    var rest := strings[k..];
    ReadIsFold(mem, PACKET, loc, loc, EMPTY_NAME);
    AcceptedStartsWith(mem, loc, rest);
    var ts := Decode(mem, PACKET, loc, loc).value.tokens;
    MatchFields(ts, strings, k, n);
  }

  /** An accepted occurrence begins with the first of the strings, spelled exactly. */
  lemma AcceptedStartsWith(mem: seq<byte>, loc: nat, strings: seq<seq<byte>>)
    requires Memory(mem) && loc < PACKET && strings != [] && LabelSized(strings[0])
    requires Accepts(mem, loc, strings) && Decode(mem, PACKET, loc, loc).Some?
    ensures var ts := Decode(mem, PACKET, loc, loc).value.tokens; ts != [] && ts[0] == Label(strings[0])
  {
  }

  lemma MatchFields(ts: seq<Token>, strings: seq<seq<byte>>, k: nat, n: Name)
    requires GoodName(strings) && k < |strings| && Holds(n, strings, k)
    requires GoodTokens(ts) && ts != [] && ts[0] == Label(strings[k])
    requires FieldsMatch(Fold(ts, EMPTY_NAME), strings[k..])
    ensures FieldsMatch(Fold(ts, n), strings)
  {
    hide Fold;
    var r, s := Fold(ts, EMPTY_NAME), Fold(ts, n);
    if k == 0 {
      assert strings[k..] == strings;
    } else {
      assert strings[k..][0] == strings[k];
      FoldTail(ts, strings, k, n);
      forall i | 0 <= i < |strings| ensures EqNoCase(strings[i], s.fields[i]) {
        if i >= k {
          assert strings[k..][i - k] == strings[i];
          assert s.fields[k + (i - k)] == r.fields[i - k];
        }
      }
    }
  }

  /** Names written in full read back: the reader finds as many parts as were given,
      every part equal up to ASCII case, and stops at the write index; in the memory
      as it is left, in any later state of it and in any packet cut from it. */
  lemma RoundTrip(mem: seq<byte>, index: nat, strings: seq<seq<byte>>, hole: nat, later: seq<byte>, size: nat)
    requires Memory(mem) && index <= PACKET && GoodName(strings) && Whole(mem, index, index, strings, hole)
    requires hole + 2 <= index || hole == NO_HOLE
    requires var w := Append(mem, index, strings); w.index <= size < |later| && Kept(w.mem, later, w.index, hole)
    ensures var w, r := Append(mem, index, strings), Read(later, size, index, index, EMPTY_NAME);
      r.0 == Some(w.index) && FieldsMatch(r.1, strings)
  {
    assert strings[0..] == strings;
    DecodeWritten(mem, index, index, strings, hole, later, size);
    FoldSpelling(mem, index, index, strings, hole, 0, EMPTY_NAME);
    ReadIsFold(later, size, index, index, EMPTY_NAME);
  }

  /** The name begun at start is written in full from index on; if a pointer to an earlier
      name is used, that name is settled. */
  ghost predicate Complete(mem: seq<byte>, start: nat, index: nat, strings: seq<seq<byte>>, hole: nat)
    requires Memory(mem) && index <= PACKET
    decreases |strings|
  {
    if strings == [] then index < PACKET
    else
      match FindMatch(mem, 0, index, strings)
      case Some(loc) => index + 1 < PACKET && (loc < start ==> Settled(mem, loc, index, hole))
      case None =>
        var w := AppendString(mem, index, strings[0]);
        w.ret != 0 && Complete(w.mem, start, w.index, strings[1..], hole)
  }

  /** What the writer takes for an earlier name, if anything, begins before this one. */
  ghost predicate PointsBack(mem: seq<byte>, start: nat, index: nat, strings: seq<seq<byte>>)
    requires Memory(mem) && index <= PACKET
    decreases |strings|
  {
    strings == [] ||
    match FindMatch(mem, 0, index, strings)
    case Some(loc) => loc < start
    case None =>
      var w := AppendString(mem, index, strings[0]);
      PointsBack(w.mem, start, w.index, strings[1..])
  }

  lemma {:induction false} WholePointsBack(mem: seq<byte>, start: nat, index: nat, strings: seq<seq<byte>>, hole: nat)
    requires Memory(mem) && index <= PACKET && Complete(mem, start, index, strings, hole)
    ensures Whole(mem, start, index, strings, hole) <==> PointsBack(mem, start, index, strings)
    decreases |strings|
  {
    hide FindMatch, AppendString, Settled;
    if strings != [] && FindMatch(mem, 0, index, strings).None? {
      var w := AppendString(mem, index, strings[0]);
      WholePointsBack(w.mem, start, w.index, strings[1..], hole);
    }
  }

  /** A name that points into itself cannot be decoded. */
  lemma {:induction false} SelfPointing(mem: seq<byte>, start: nat, index: nat, strings: seq<seq<byte>>,
                                        hole: nat, later: seq<byte>, size: nat)
    requires Memory(mem) && index <= PACKET && start <= index && Complete(mem, start, index, strings, hole)
    requires !PointsBack(mem, start, index, strings) && (hole + 2 <= start || hole == NO_HOLE)
    requires forall i :: 0 <= i < |strings| ==> LabelSized(strings[i])
    requires var r := Append(mem, index, strings); r.index <= size < |later| && Kept(r.mem, later, r.index, hole)
    ensures Decode(later, size, start, index).None?
    decreases |strings|
  {
    hide Accepts, FindMatch, Settled, Decode, AppendString, LabelSized, Put, U16, U32;
    AppendFrame(mem, index, strings);
    var m := FindMatch(mem, 0, index, strings);
    if m.Some? {
      PointerStands(mem, index, m.value, hole, later);
      PointerFails(later, size, start, index, m.value);
    } else {
      var w := AppendString(mem, index, strings[0]);
      AppendFrame(w.mem, w.index, strings[1..]);
      assert Same(w.mem, later, index, w.index);
      StringWritten(mem, index, strings[0], later);
      SelfPointing(w.mem, start, w.index, strings[1..], hole, later, size);
      LabelFails(later, size, start, index, strings[0]);
    }
  }

  lemma PointerStands(mem: seq<byte>, index: nat, loc: nat, hole: nat, later: seq<byte>)
    requires Memory(mem) && index + 1 < PACKET && loc < PACKET && (hole + 2 <= index || hole == NO_HOLE)
    requires var r := AppendU16(mem, index, NAME_REF + loc); r.index <= |later| && Kept(r.mem, later, r.index, hole)
    ensures index + 2 <= |later|
    ensures later[index] == U16(NAME_REF + loc)[0] && later[index + 1] == U16(NAME_REF + loc)[1]
  {
    hide U16;
    var r := AppendU16(mem, index, NAME_REF + loc);
    assert r.mem[index..index + 2] == U16(NAME_REF + loc);
    assert r.mem[index] == r.mem[index..index + 2][0] && r.mem[index + 1] == r.mem[index..index + 2][1];
  }

  lemma PointerFails(mem: seq<byte>, size: nat, start: nat, index: nat, loc: nat)
    requires index + 2 <= size < |mem| && start <= loc < PACKET
    requires mem[index] == U16(NAME_REF + loc)[0] && mem[index + 1] == U16(NAME_REF + loc)[1]
    ensures Decode(mem, size, start, index).None?
  {
    PointerBits(loc);
    assert Target(mem, index) == loc;
  }

  lemma LabelFails(mem: seq<byte>, size: nat, start: nat, index: nat, s: seq<byte>)
    requires index + 1 + |s| <= size < |mem| && LabelSized(s) && mem[index] == |s|
    requires Decode(mem, size, start, index + 1 + |s|).None?
    ensures Decode(mem, size, start, index).None?
  {
  }

  /** A name that is written in full reads back, all parts in their places, if and only if
      what it points to, if anything, begins before it; otherwise it points into itself and
      no reader gets to its end. */
  lemma ReadsBackExactly(mem: seq<byte>, index: nat, strings: seq<seq<byte>>, hole: nat, later: seq<byte>, size: nat)
    requires Memory(mem) && index <= PACKET && GoodName(strings) && Complete(mem, index, index, strings, hole)
    requires hole + 2 <= index || hole == NO_HOLE
    requires var w := Append(mem, index, strings); w.index <= size < |later| && Kept(w.mem, later, w.index, hole)
    ensures Read(later, size, index, index, EMPTY_NAME).0.Some? <==> PointsBack(mem, index, index, strings)
    ensures var w, r := Append(mem, index, strings), Read(later, size, index, index, EMPTY_NAME);
      r.0.Some? ==> r.0 == Some(w.index) && FieldsMatch(r.1, strings)
  {
    hide Append, Read, Decode, Whole, Complete, PointsBack, GoodName, FieldsMatch;
    WholePointsBack(mem, index, index, strings, hole);
    if PointsBack(mem, index, index, strings) {
      RoundTrip(mem, index, strings, hole, later, size);
    } else {
      GoodSizes(strings);
      SelfPointing(mem, index, index, strings, hole, later, size);
      ReadIsFold(later, size, index, index, EMPTY_NAME);
    }
  }

  /** The labels among the tokens: what the name spells on the wire. */
  ghost function Labels(ts: seq<Token>): seq<seq<byte>> {
    if ts == [] then []
    else if ts[0].Label? then [ts[0].text] + Labels(ts[1..])
    else Labels(ts[1..])
  }

  /** Each wire label, cut at a NUL, is the next string up to case. */
  ghost predicate Spells(labels: seq<seq<byte>>, strings: seq<seq<byte>>) {
    |labels| == |strings| && forall i :: 0 <= i < |strings| ==> EqNoCase(strings[i], CStr(labels[i]))
  }

  /** Flags and parts are never taken back. */
  lemma {:induction false} FlagsStay(ts: seq<Token>, n: Name)
    requires WellFormed(n) && GoodTokens(ts)
    ensures var r := Fold(ts, n);
      (n.sub ==> r.sub) && (n.invalid ==> r.invalid) && r.parts >= n.parts
      && (n.parts >= 1 ==> |r.fields[0]| >= |n.fields[0]|)
  {
    if ts != [] {
      FlagsStay(ts[1..], Step(ts[0], n));
    }
  }

  /** Fields that are already stored, other than the host, keep their text. */
  lemma {:induction false} StoredStay(ts: seq<Token>, n: Name)
    requires WellFormed(n) && GoodTokens(ts)
    ensures forall i :: 1 <= i < n.parts ==> Fold(ts, n).fields[i] == n.fields[i]
    ensures n.parts >= 1 && |n.fields[0]| < FIELD - 1 && |Fold(ts, n).fields[0]| <= |n.fields[0]|
      ==> Fold(ts, n).fields[0] == n.fields[0]
  {
    if ts != [] {
      var m := Step(ts[0], n);
      StoredStay(ts[1..], m);
      FlagsStay(ts[1..], m);
      StepKeeps(ts[0], n);
    }
  }

  lemma StepKeeps(t: Token, n: Name)
    requires WellFormed(n) && (t.Label? ==> 0 < |t.text| <= 63)
    ensures var m := Step(t, n);
      && m.parts >= n.parts
      && (forall i :: 1 <= i < n.parts ==> m.fields[i] == n.fields[i])
      && (n.parts >= 1 && |n.fields[0]| < FIELD - 1 ==> m.fields[0] == n.fields[0] || |m.fields[0]| > |n.fields[0]|)
  {
    if n.parts >= 1 && |n.fields[0]| < FIELD - 1 {
      assert |Concat(n.fields[0], [DOT])| > |n.fields[0]|;
    }
  }

  /** One label that raised no flag and did not extend the host is the next field. */
  lemma StepStores(word: seq<byte>, n: Name)
    requires WellFormed(n) && 0 < |word| <= 63 && n.parts >= 1 && |n.fields[0]| < FIELD - 1
    requires var m := Store(Enter(n), word); !m.sub && !m.invalid && |m.fields[0]| <= |n.fields[0]|
    ensures n.parts < FIELDS && !n.sub && !n.invalid
    ensures Store(Enter(n), word) == n.(fields := n.fields[n.parts := CStr(word)], parts := n.parts + 1)
  {
    assert |Concat(n.fields[0], [DOT])| > |n.fields[0]|;
  }

  /** If no label was taken for a subtype marker, joined to the host or dropped, then
      each one became the next field. */
  lemma {:induction false} LabelsAreFields(ts: seq<Token>, n: Name)
    requires WellFormed(n) && GoodTokens(ts) && n.parts >= 1 && |n.fields[0]| < FIELD - 1
    requires var r := Fold(ts, n); !r.sub && !r.invalid && |r.fields[0]| <= |n.fields[0]|
    ensures var r, ls := Fold(ts, n), Labels(ts);
      && r.parts == n.parts + |ls|
      && forall i :: 0 <= i < |ls| ==> r.fields[n.parts + i] == CStr(ls[i])
  {
    hide Store, CStr;
    if ts != [] {
      var m := Step(ts[0], n);
      FlagsStay(ts[1..], m);
      if ts[0].Label? {
        StepKeeps(ts[0], n);
        StepStores(ts[0].text, n);
        LabelsAreFields(ts[1..], m);
        StoredStay(ts[1..], m);
        var r, ls := Fold(ts, n), Labels(ts[1..]);
        forall i | 0 <= i < |Labels(ts)| ensures r.fields[n.parts + i] == CStr(Labels(ts)[i]) {
          if i > 0 {
            assert r.fields[m.parts + (i - 1)] == CStr(ls[i - 1]);
          }
        }
      } else {
        LabelsAreFields(ts[1..], m);
      }
    }
  }

  /** The spelling of a name written in full begins, after at most one hop, with its first label. */
  lemma SpellingStarts(mem: seq<byte>, index: nat, strings: seq<seq<byte>>, hole: nat)
    requires Memory(mem) && index <= PACKET && GoodName(strings) && Whole(mem, index, index, strings, hole)
    ensures var ts := Spelling(mem, index, index, strings, hole);
      ts != [] && (ts[0] == Label(strings[0]) || (|ts| > 1 && ts[0] == Hop && ts[1] == Label(strings[0])))
  {
    var m := FindMatch(mem, 0, index, strings);
    assert LabelSized(strings[0]);
    if m.Some? {
      AcceptedDecodes(mem, m.value, strings);
      AcceptedStartsWith(mem, m.value, strings);
    }
  }

  lemma HopAdds(ts: seq<Token>)
    requires GoodTokens(ts) && ts != [] && ts[0].Hop?
    ensures Fold(ts, EMPTY_NAME) == Fold(ts[1..], EMPTY_NAME) && Labels(ts) == Labels(ts[1..])
  {
  }

  lemma GoodSizes(strings: seq<seq<byte>>)
    requires GoodName(strings)
    ensures forall i :: 0 <= i < |strings| ==> LabelSized(strings[i])
  {
  }

  /** The sub flag goes up only for a label that is the subtype marker. */
  lemma {:induction false} SubIsALabel(ts: seq<Token>, n: Name)
    requires WellFormed(n) && GoodTokens(ts) && !n.sub && Fold(ts, n).sub
    ensures exists i :: 0 <= i < |Labels(ts)| && EqNoCase(CStr(Labels(ts)[i]), SUB)
  {
    var m := Step(ts[0], n);
    if m.sub {
      assert Labels(ts)[0] == ts[0].text;
    } else {
      SubIsALabel(ts[1..], m);
      var i :| 0 <= i < |Labels(ts[1..])| && EqNoCase(CStr(Labels(ts[1..])[i]), SUB);
      assert Labels(ts)[if ts[0].Label? then i + 1 else i] == Labels(ts[1..])[i];
    }
  }

  /** A name that met a subtype marker does not spell the strings. */
  lemma SubIsAlias(ts: seq<Token>, strings: seq<seq<byte>>)
    requires GoodName(strings) && GoodTokens(ts) && Fold(ts, EMPTY_NAME).sub
    ensures !Spells(Labels(ts), strings)
  {
    SubIsALabel(ts, EMPTY_NAME);
    var i :| 0 <= i < |Labels(ts)| && EqNoCase(CStr(Labels(ts)[i]), SUB);
    var c := CStr(Labels(ts)[i]);
    assert forall s: seq<byte> :: EqNoCase(s, c) ==> EqNoCase(s, SUB);
  }

  // ---------------------------------------------------------------------
  // What the earlier name that a pointer leads to makes of the written name. All of it can
  // be told from the memory before the call.

  /** The tokens of the earlier name that begins at loc. */
  ghost function Earlier(mem: seq<byte>, loc: nat): seq<Token>
    requires Memory(mem)
  {
    var d := Decode(mem, PACKET, loc, loc);
    if d.Some? then d.value.tokens else []
  }

  lemma EarlierGood(mem: seq<byte>, loc: nat)
    requires Memory(mem)
    ensures GoodTokens(Earlier(mem, loc))
  {
    hide Decode;
    DecodeGood(mem, PACKET, loc, loc);
  }

  /** The earlier name, if one is used, raises the sub flag. */
  ghost predicate Aliased(mem: seq<byte>, index: nat, strings: seq<seq<byte>>)
    requires Memory(mem) && index <= PACKET
    decreases |strings|
  {
    strings != [] &&
    match FindMatch(mem, 0, index, strings)
    case Some(loc) => Read(mem, PACKET, loc, loc, EMPTY_NAME).1.sub
    case None =>
      var w := AppendString(mem, index, strings[0]);
      Aliased(w.mem, w.index, strings[1..])
  }

  /** The earlier name, if one is used, has just as many labels as it stands for strings. */
  ghost predicate SameCount(mem: seq<byte>, index: nat, strings: seq<seq<byte>>)
    requires Memory(mem) && index <= PACKET
    decreases |strings|
  {
    strings == [] ||
    match FindMatch(mem, 0, index, strings)
    case Some(loc) => |Labels(Earlier(mem, loc))| == |strings|
    case None =>
      var w := AppendString(mem, index, strings[0]);
      SameCount(w.mem, w.index, strings[1..])
  }

  /** The earlier name, if one is used, goes on after its last part: with another label, or
      with another pointer. */
  ghost predicate GoesOn(mem: seq<byte>, index: nat, strings: seq<seq<byte>>)
    requires Memory(mem) && index <= PACKET
    decreases |strings|
  {
    strings != [] &&
    match FindMatch(mem, 0, index, strings)
    case Some(loc) =>
      EarlierGood(mem, loc);
      var ts := Earlier(mem, loc);
      ts != [] && Fold(ts[..|ts| - 1], EMPTY_NAME).parts == |strings|
    case None =>
      var w := AppendString(mem, index, strings[0]);
      GoesOn(w.mem, w.index, strings[1..])
  }

  /** The last token last. */
  lemma {:induction false} FoldLast(ts: seq<Token>, n: Name)
    requires WellFormed(n) && GoodTokens(ts) && ts != []
    ensures Fold(ts, n) == Step(ts[|ts| - 1], Fold(ts[..|ts| - 1], n))
  {
    if |ts| == 1 {
      assert ts[1..] == [] && ts[..0] == [];
    } else {
      assert ts[1..][..|ts| - 2] == ts[..|ts| - 1][1..];
      FoldLast(ts[1..], Step(ts[0], n));
    }
  }

  /** Only a name of four parts is invalid. */
  lemma {:induction false} InvalidIsFull(ts: seq<Token>, n: Name)
    requires WellFormed(n) && GoodTokens(ts) && (n.invalid ==> n.parts == FIELDS)
    ensures Fold(ts, n).invalid ==> Fold(ts, n).parts == FIELDS
  {
    if ts != [] {
      InvalidIsFull(ts[1..], Step(ts[0], n));
    }
  }

  /** A name is invalid if and only if it was full before its last token. */
  lemma InvalidAtLast(ts: seq<Token>, n: Name)
    requires WellFormed(n) && GoodTokens(ts) && ts != [] && !n.invalid
    ensures Fold(ts, n).invalid <==> Fold(ts[..|ts| - 1], n).parts == FIELDS
  {
    FoldLast(ts, n);
    InvalidIsFull(ts[..|ts| - 1], n);
  }

  /** The last token only adds to the parts and to the host. */
  lemma {:induction false} LastAdds(ts: seq<Token>, n: Name)
    requires WellFormed(n) && GoodTokens(ts) && ts != [] && n.parts >= 1
    ensures GoodTokens(ts[..|ts| - 1])
    ensures var front := ts[..|ts| - 1];
      Fold(front, n).parts <= Fold(ts, n).parts && |Fold(front, n).fields[0]| <= |Fold(ts, n).fields[0]|
  {
    hide WellFormed, Store;
    var front := ts[..|ts| - 1];
    if |ts| == 1 {
      HostGrows(ts, n);
    } else {
      OnePartAtLeast(ts[0], n);
      LastAdds(ts[1..], Step(ts[0], n));
      assert ts[1..][..|ts| - 2] == front[1..];
    }
  }

  lemma OnePartAtLeast(t: Token, n: Name)
    requires WellFormed(n) && (t.Label? ==> 0 < |t.text| <= 63) && n.parts >= 1
    ensures Step(t, n).parts >= 1
  {
  }

  /** FoldShift for all but the last token. */
  lemma FrontShift(ts: seq<Token>, t: Name, a: Name, k: nat)
    requires WellFormed(t) && WellFormed(a) && GoodTokens(ts) && ts != []
    requires 1 <= k && 1 <= t.parts && a.parts == k + t.parts && |t.fields[0]| < FIELD - 1 && !t.invalid
    requires a.invalid ==> a.parts == FIELDS
    requires forall j :: 0 <= j < t.parts ==> a.fields[k + j] == t.fields[j]
    requires var r := Fold(ts, t); r.parts + k <= FIELDS && |r.fields[0]| == |t.fields[0]|
    ensures GoodTokens(ts[..|ts| - 1])
    ensures Fold(ts[..|ts| - 1], a).parts == k + Fold(ts[..|ts| - 1], t).parts
  {
    hide Fold;
    LastAdds(ts, t);
    HostGrows(ts[..|ts| - 1], t);
    FoldShift(ts[..|ts| - 1], t, a, k);
  }

  /** Where FoldShift starts from: string k as the first part and as part k. */
  lemma LabelStarts(strings: seq<seq<byte>>, k: nat, n: Name)
    requires GoodName(strings) && 1 <= k < |strings| && Holds(n, strings, k)
    ensures 0 < |strings[k]| <= 63
    ensures var t, a := Store(EMPTY_NAME, strings[k]), Store(n, strings[k]);
      && t.fields[0] == strings[k] && t.parts == 1 && a.parts == k + 1 && a.fields[k] == strings[k]
      && !t.invalid && !a.invalid
  {
    assert LabelSized(strings[k]);
    StoreFresh(strings, k);
    StorePlain(n, strings, k);
  }

  lemma FoldLabel(ts: seq<Token>, word: seq<byte>, n: Name)
    requires WellFormed(n) && GoodTokens(ts) && ts != [] && ts[0] == Label(word) && n.parts < FIELDS
    ensures 0 < |word| <= 63 && GoodTokens(ts[1..])
    ensures Fold(ts, n) == Fold(ts[1..], Store(n, word))
  {
    hide Store, WellFormed;
  }

  /** FrontShift one label earlier. */
  lemma FrontFrom(ts: seq<Token>, word: seq<byte>, e: Name, t: Name, n: Name, a: Name, k: nat)
    requires WellFormed(e) && WellFormed(n) && e.parts == 0 && n.parts == k && 1 <= k < FIELDS
    requires GoodTokens(ts) && |ts| > 1 && ts[0] == Label(word) && 0 < |word| <= 63
    requires t == Store(e, word) && a == Store(n, word) && t.parts == 1 && a.parts == k + 1 && !t.invalid && !a.invalid
    requires t.fields[0] == a.fields[k] == word
    requires var r := Fold(ts, e); r.parts + k <= FIELDS && |r.fields[0]| == |word|
    ensures GoodTokens(ts[..|ts| - 1]) && Fold(ts[..|ts| - 1], n).parts == k + Fold(ts[..|ts| - 1], e).parts
  {
    hide Fold, Store;
    var front := ts[..|ts| - 1];
    FoldLabel(ts, word, e);
    FoldLabel(front, word, e);
    FoldLabel(front, word, n);
    assert front[1..] == ts[1..][..|ts| - 2];
    FrontShift(ts[1..], t, a, k);
  }

  lemma NoTokens(n: Name)
    requires WellFormed(n)
    ensures Fold([], n) == n
  {
  }

  lemma EmptyIsWellFormed()
    ensures WellFormed(EMPTY_NAME)
  {
  }

  /** All but the last token of an earlier name, folded into a fresh name and into one that
      holds k parts. */
  lemma FrontParts(ts: seq<Token>, strings: seq<seq<byte>>, k: nat, n: Name)
    requires GoodName(strings) && k < |strings| && Holds(n, strings, k)
    requires GoodTokens(ts) && ts != [] && ts[0] == Label(strings[k])
    requires var r := Fold(ts, EMPTY_NAME);
      r.parts == |strings| - k && EqNoCase(strings[k], r.fields[0])
    ensures GoodTokens(ts[..|ts| - 1])
    ensures Fold(ts[..|ts| - 1], n).parts == k + Fold(ts[..|ts| - 1], EMPTY_NAME).parts
  {
    hide EqNoCase, Store, Fold, LabelSized, NulFree;
    EmptyIsWellFormed();
    if |ts| == 1 {
      NoTokens(EMPTY_NAME);
      NoTokens(n);
      assert ts[..0] == [];
    } else if k > 0 {
      LabelStarts(strings, k, n);
      SameLength(strings[k], Fold(ts, EMPTY_NAME).fields[0]);
      FrontFrom(ts, strings[k], EMPTY_NAME, Store(EMPTY_NAME, strings[k]), n, Store(n, strings[k]), k);
    }
  }

  /** The flags that the reader raises on a written name. */
  lemma {:induction false} FoldFlags(mem: seq<byte>, start: nat, index: nat, strings: seq<seq<byte>>, hole: nat,
                                     k: nat, n: Name)
    requires Memory(mem) && index <= PACKET && GoodName(strings) && Holds(n, strings, k) && !n.sub
    requires Whole(mem, start, index, strings[k..], hole)
    requires GoodTokens(Spelling(mem, start, index, strings[k..], hole))
    ensures var r := Fold(Spelling(mem, start, index, strings[k..], hole), n);
      && (r.sub <==> Aliased(mem, index, strings[k..]))
      && (r.invalid <==> |strings| == FIELDS && GoesOn(mem, index, strings[k..]))
    decreases |strings| - k
  {
    var rest := strings[k..];
    var ts := Spelling(mem, start, index, rest, hole);
    if rest != [] {
      assert rest[0] == strings[k] && rest[1..] == strings[k + 1..];
      var m := FindMatch(mem, 0, index, rest);
      if m.Some? {
        MatchFlags(mem, m.value, strings, k, n);
        assert ts[1..] == Earlier(mem, m.value);
      } else {
        var w := AppendString(mem, index, rest[0]);
        StorePlain(n, strings, k);
        assert LabelSized(strings[k]) && ts[0] == Label(strings[k]);
        assert ts[1..] == Spelling(w.mem, start, w.index, strings[k + 1..], hole);
        FoldFlags(w.mem, start, w.index, strings, hole, k + 1, Store(n, strings[k]));
      }
    }
  }

  lemma MatchFlags(mem: seq<byte>, loc: nat, strings: seq<seq<byte>>, k: nat, n: Name)
    requires Memory(mem) && loc < PACKET && GoodName(strings) && k < |strings| && Holds(n, strings, k) && !n.sub
    requires Accepts(mem, loc, strings[k..])
    ensures Decode(mem, PACKET, loc, loc).Some? && GoodTokens(Earlier(mem, loc))
    ensures var ts := Earlier(mem, loc);
      && ts == Decode(mem, PACKET, loc, loc).value.tokens && ts != []
      && (Fold(ts, n).sub <==> Read(mem, PACKET, loc, loc, EMPTY_NAME).1.sub)
      && (Fold(ts, n).invalid
          <==> |strings| == FIELDS && Fold(ts[..|ts| - 1], EMPTY_NAME).parts == |strings| - k)
  {
    var rest := strings[k..];
    ReadIsFold(mem, PACKET, loc, loc, EMPTY_NAME);
    AcceptedStartsWith(mem, loc, rest);
    hide Read, Decode, Fold, EqNoCase;
    var ts := Earlier(mem, loc);
    assert rest[0] == strings[k];
    if k > 0 {
      FoldTail(ts, strings, k, n);
    }
    InvalidIsFull(ts, n);
    InvalidAtLast(ts, n);
    FrontParts(ts, strings, k, n);
  }

  /** A label adds at most one part, and if it does it becomes that part; a pointer adds none. */
  lemma StepAdds(t: Token, n: Name)
    requires WellFormed(n) && (t.Label? ==> 0 < |t.text| <= 63)
    ensures var m := Step(t, n);
      && n.parts <= m.parts <= n.parts + (if t.Label? then 1 else 0)
      && (t.Label? && m.parts == n.parts + 1 ==> m.fields == n.fields[n.parts := CStr(t.text)])
      && (t.Hop? ==> m.fields == n.fields)
  {
    hide Concat, CStr, Reserved;
  }

  lemma {:induction false} PartsBound(ts: seq<Token>, n: Name)
    requires WellFormed(n) && GoodTokens(ts)
    ensures Fold(ts, n).parts <= n.parts + |Labels(ts)|
  {
    hide Step;
    if ts != [] {
      StepAdds(ts[0], n);
      PartsBound(ts[1..], Step(ts[0], n));
    }
  }

  /** If every label added a part, the parts are the labels. */
  lemma {:induction false} PartsAreLabels(ts: seq<Token>, n: Name)
    requires WellFormed(n) && GoodTokens(ts) && Fold(ts, n).parts == n.parts + |Labels(ts)|
    ensures var r, ls := Fold(ts, n), Labels(ts);
      && (forall i :: 0 <= i < n.parts ==> r.fields[i] == n.fields[i])
      && (forall i :: 0 <= i < |ls| ==> r.fields[n.parts + i] == CStr(ls[i]))
  {
    hide CStr, Step, NulFree;
    if ts != [] {
      var m := Step(ts[0], n);
      StepAdds(ts[0], n);
      PartsBound(ts[1..], m);
      PartsAreLabels(ts[1..], m);
      if ts[0].Label? {
        var r, ls := Fold(ts, n), Labels(ts[1..]);
        forall i | 0 <= i < |Labels(ts)| ensures r.fields[n.parts + i] == CStr(Labels(ts)[i]) {
          if i > 0 {
            assert r.fields[m.parts + (i - 1)] == CStr(ls[i - 1]);
          }
        }
      }
    }
  }

  /** The written name spells the strings exactly when the counts agree. */
  lemma {:induction false} SpellsByCount(mem: seq<byte>, start: nat, index: nat, strings: seq<seq<byte>>, hole: nat)
    requires Memory(mem) && index <= PACKET && Whole(mem, start, index, strings, hole)
    requires forall i :: 0 <= i < |strings| ==> LabelSized(strings[i])
    ensures Spells(Labels(Spelling(mem, start, index, strings, hole)), strings) <==> SameCount(mem, index, strings)
    decreases |strings|
  {
    hide Accepts, AppendString, LabelSized, Settled;
    var ts := Spelling(mem, start, index, strings, hole);
    if strings != [] {
      var m := FindMatch(mem, 0, index, strings);
      if m.Some? {
        AcceptedDecodes(mem, m.value, strings);
        assert ts[1..] == Earlier(mem, m.value);
        AcceptedCount(mem, m.value, strings);
      } else {
        var w := AppendString(mem, index, strings[0]);
        SpellsByCount(w.mem, start, w.index, strings[1..], hole);
        assert ts[1..] == Spelling(w.mem, start, w.index, strings[1..], hole);
        SpellsOne(strings[0], Labels(ts[1..]), strings);
      }
    }
  }

  lemma AcceptedCount(mem: seq<byte>, loc: nat, strings: seq<seq<byte>>)
    requires Memory(mem) && loc < PACKET && strings != [] && Accepts(mem, loc, strings)
    ensures Spells(Labels(Earlier(mem, loc)), strings) <==> |Labels(Earlier(mem, loc))| == |strings|
  {
    hide Read, Decode, EqNoCase, Fold, Labels, CStr;
    ReadIsFold(mem, PACKET, loc, loc, EMPTY_NAME);
    var ts := Earlier(mem, loc);
    if |Labels(ts)| == |strings| {
      PartsAreLabels(ts, EMPTY_NAME);
      var r := Fold(ts, EMPTY_NAME);
      forall i | 0 <= i < |strings| ensures EqNoCase(strings[i], CStr(Labels(ts)[i])) {
        assert r.fields[0 + i] == CStr(Labels(ts)[i]);
      }
    }
  }

  /** One label in front. */
  lemma SpellsOne(s: seq<byte>, labels: seq<seq<byte>>, strings: seq<seq<byte>>)
    requires strings != [] && s == strings[0] && LabelSized(s)
    ensures Spells([s] + labels, strings) <==> Spells(labels, strings[1..])
  {
    CStrOfNulFree(s);
    var all := [s] + labels;
    if Spells(all, strings) {
      forall i | 0 <= i < |strings[1..]| ensures EqNoCase(strings[1..][i], CStr(labels[i])) {
        assert EqNoCase(strings[i + 1], CStr(all[i + 1]));
      }
    }
    if Spells(labels, strings[1..]) {
      forall i | 0 <= i < |strings| ensures EqNoCase(strings[i], CStr(all[i])) {
        assert i > 0 ==> EqNoCase(strings[1..][i - 1], CStr(labels[i - 1]));
      }
    }
  }

  /** On the wire a name written in full spells the given strings, to any receiver that
      follows RFC 1035, if and only if the earlier name that it points to, if any, has just
      as many labels as it stands for strings. The reader's own sub flag tells whether that
      earlier name has a subtype marker; then it has more labels, and with fewer than four
      strings it has more labels only then. */
  lemma WireRoundTrip(mem: seq<byte>, index: nat, strings: seq<seq<byte>>, hole: nat, later: seq<byte>, size: nat)
    requires Memory(mem) && index <= PACKET && GoodName(strings) && Whole(mem, index, index, strings, hole)
    requires hole + 2 <= index || hole == NO_HOLE
    requires var w := Append(mem, index, strings); w.index <= size < |later| && Kept(w.mem, later, w.index, hole)
    ensures Decode(later, size, index, index).Some?
    ensures Spells(Labels(Decode(later, size, index, index).value.tokens), strings) <==> SameCount(mem, index, strings)
    ensures Read(later, size, index, index, EMPTY_NAME).1.sub <==> Aliased(mem, index, strings)
    ensures Aliased(mem, index, strings) ==> !SameCount(mem, index, strings)
    ensures |strings| < FIELDS ==> (SameCount(mem, index, strings) <==> !Aliased(mem, index, strings))
  {
    hide Append, Decode, Read, Whole, Spelling, Fold, Labels, GoodName, FieldsMatch, Spells, Accepts, Aliased,
      SameCount, GoesOn;
    RoundTrip(mem, index, strings, hole, later, size);
    assert forall i :: 0 <= i < |strings| ==> LabelSized(strings[i]) by { GoodSizes(strings); }
    DecodeWritten(mem, index, index, strings, hole, later, size);
    ReadIsFold(later, size, index, index, EMPTY_NAME);
    SpellingStarts(mem, index, strings, hole);
    assert strings[0..] == strings;
    FoldFlags(mem, index, index, strings, hole, 0, EMPTY_NAME);
    SpellsByCount(mem, index, index, strings, hole);
    var ts := Spelling(mem, index, index, strings, hole);
    if Fold(ts, EMPTY_NAME).sub {
      SubIsAlias(ts, strings);
    } else if |strings| < FIELDS {
      if ts[0].Hop? {
        HopAdds(ts);
        SpellsFields(ts[1..], strings);
      } else {
        SpellsFields(ts, strings);
      }
    }
  }

  /** What the parser makes of a written name in the domain "local": four parts stay in
      their places, three are service, proto and domain, two are host and domain. It is
      taken for invalid if and only if it has four parts and the earlier name that it points
      to goes on after its last part. */
  lemma ParseRoundTrip(mem: seq<byte>, index: nat, strings: seq<seq<byte>>, hole: nat, later: seq<byte>, size: nat)
    requires Memory(mem) && index <= PACKET && GoodName(strings) && Whole(mem, index, index, strings, hole)
    requires |strings| > 1 && EqNoCase(strings[|strings| - 1], LOCAL)
    requires hole + 2 <= index || hole == NO_HOLE
    requires var w := Append(mem, index, strings); w.index <= size < |later| && Kept(w.mem, later, w.index, hole)
    ensures var w, r := Append(mem, index, strings), Parse(later, size, index);
      && r.0 == Some(w.index)
      && (r.1.invalid <==> |strings| == FIELDS && GoesOn(mem, index, strings))
      && (|strings| == 4 ==> forall i :: 0 <= i < 4 ==> EqNoCase(strings[i], r.1.fields[i]))
      && (|strings| == 3 ==> r.1.fields[0] == [] && forall i :: 0 <= i < 3 ==> EqNoCase(strings[i], r.1.fields[i + 1]))
      && (|strings| == 2 ==> EqNoCase(strings[0], r.1.fields[0]) && r.1.fields[1] == r.1.fields[2] == []
                             && EqNoCase(strings[1], r.1.fields[3]))
  {
    hide Read, Append, Decode, Whole, Spelling, Fold, GoodName, EqNoCase, Aliased, GoesOn, Accepts;
    RoundTrip(mem, index, strings, hole, later, size);
    assert forall i :: 0 <= i < |strings| ==> LabelSized(strings[i]) by { GoodSizes(strings); }
    DecodeWritten(mem, index, index, strings, hole, later, size);
    ReadIsFold(later, size, index, index, EMPTY_NAME);
    assert strings[0..] == strings;
    FoldFlags(mem, index, index, strings, hole, 0, EMPTY_NAME);
    var n := Read(later, size, index, index, EMPTY_NAME).1;
    DomainReads(strings[|strings| - 1], n.fields[|strings| - 1]);
  }

  lemma DomainReads(s: seq<byte>, field: seq<byte>)
    requires EqNoCase(s, LOCAL) && EqNoCase(s, field)
    ensures EqNoCase(field, LOCAL)
  {
  }

  lemma SpellsFields(ts: seq<Token>, strings: seq<seq<byte>>)
    requires GoodName(strings) && GoodTokens(ts) && ts != [] && ts[0] == Label(strings[0])
    requires var r := Fold(ts, EMPTY_NAME); !r.sub && !r.invalid && FieldsMatch(r, strings)
    ensures Spells(Labels(ts), strings)
  {
    hide EqNoCase;
    assert LabelSized(strings[0]);
    StoreFresh(strings, 0);
    CStrOfNulFree(strings[0]);
    var n := Store(EMPTY_NAME, strings[0]);
    var r := Fold(ts, EMPTY_NAME);
    SameLength(strings[0], r.fields[0]);
    LabelsAreFields(ts[1..], n);
    StoredStay(ts[1..], n);
    var ls := Labels(ts[1..]);
    forall i | 0 <= i < |strings| ensures EqNoCase(strings[i], CStr(Labels(ts)[i])) {
      if i > 0 {
        assert r.fields[1 + (i - 1)] == CStr(ls[i - 1]);
      }
    }
  }
}
