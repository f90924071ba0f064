/** Inputs on which the compressed name does not mean what was asked for. They show why the
    round trip asks that a name points back, and why the wire form depends on how many
    labels the earlier name has. */
module NameLimits {
  import opened Octets
  import opened NameReader
  import opened NameWriter

  /** "_x", "_http", "_tcp" and "x". */
  const X_TYPE: seq<byte> := [95, 120]
  const HTTP: seq<byte> := [95, 104, 116, 116, 112]
  const TCP: seq<byte> := [95, 116, 99, 112]
  const X: seq<byte> := [120]

  /** mem holds the length byte and the label at offset at. */
  ghost predicate LabelAt(mem: seq<byte>, at: nat, word: seq<byte>) {
    at + 1 + |word| <= |mem| && mem[at] == |word| && mem[at + 1..at + 1 + |word|] == word
  }

  lemma LabelStays(mem: seq<byte>, later: seq<byte>, at: nat, word: seq<byte>)
    requires LabelAt(mem, at, word) && Same(mem, later, at, at + 1 + |word|)
    ensures LabelAt(later, at, word)
  {
    assert forall k :: at <= k < at + 1 + |word| ==> later[k] == mem[k];
    assert later[at + 1..at + 1 + |word|] == mem[at + 1..at + 1 + |word|];
  }

  /** One label read. */
  lemma ReadsLabel(mem: seq<byte>, start: nat, at: nat, word: seq<byte>, n: Name)
    requires Memory(mem) && WellFormed(n) && n.parts < FIELDS
    requires LabelAt(mem, at, word) && LabelSized(word) && at + 1 + |word| <= PACKET
    ensures Read(mem, PACKET, start, at, n) == Read(mem, PACKET, start, at + 1 + |word|, Store(n, word))
  {
  }

  /** What the three kinds of label used here do to a name. */
  lemma Stores(word: seq<byte>, n: Name)
    requires WellFormed(n) && n.parts < FIELDS && !n.invalid
    requires word in [X_TYPE, LOCAL, HTTP, TCP] || (word == X && n.parts == 0)
    ensures LabelSized(word)
    ensures Store(n, word) == n.(fields := n.fields[n.parts := word], parts := n.parts + 1)
  {
    CStrOfNulFree(word);
  }

  lemma StoresMarker(n: Name)
    requires WellFormed(n) && n.parts < FIELDS && !n.invalid
    ensures LabelSized(SUB) && Store(n, SUB) == n.(sub := true)
  {
    CStrOfNulFree(SUB);
  }

  lemma ReadsEnd(mem: seq<byte>, start: nat, at: nat, n: Name)
    requires Memory(mem) && WellFormed(n) && at < PACKET && mem[at] == 0
    ensures Read(mem, PACKET, start, at, n) == (Some(at + 1), n)
  {
  }

  const SELF_TYPED: seq<seq<byte>> := [X_TYPE, X_TYPE, LOCAL]

  /** Old bytes after the write index complete the half-written name "_x" to "_x.local":
      the writer takes its own beginning for an earlier name, points to it, and the
      result is unreadable. */
  lemma StaleBytesBreakTheName(mem: seq<byte>)
    requires Memory(mem)
    requires forall k :: 0 <= k < 12 ==> mem[k] == 0
    requires LabelAt(mem, 15, LOCAL) && mem[21] == 0
    ensures GoodName(SELF_TYPED) && !PointsBack(mem, 12, 12, SELF_TYPED)
    ensures var w := Append(mem, 12, SELF_TYPED);
      w.ret == 5 && w.index == 17 && Read(w.mem, PACKET, 12, 12, EMPTY_NAME).0.None?
  {
    hide Accepts, Read, Append, AppendString, FindMatch, LabelAt, Put, EqNoCase, U16;
    SelfTypedIsGood();
    NothingYet(mem, 12, SELF_TYPED);
    TypeWritten(mem);
    var w := AppendString(mem, 12, X_TYPE);
    AppendMisses(mem, 12, SELF_TYPED);
    assert SELF_TYPED[1..] == [X_TYPE, LOCAL];
    SelfMatch(w.mem);
    AppendHits(w.mem, 15, [X_TYPE, LOCAL], 12);
    SelfPointer(w.mem, AppendU16(w.mem, 15, NAME_REF + 12).mem);
  }

  lemma TypeWritten(mem: seq<byte>)
    requires Memory(mem) && (forall k :: 0 <= k < 12 ==> mem[k] == 0) && LabelAt(mem, 15, LOCAL) && mem[21] == 0
    ensures var w := AppendString(mem, 12, X_TYPE);
      && w.index == 15 && w.ret == 3 && LabelAt(w.mem, 12, X_TYPE) && LabelAt(w.mem, 15, LOCAL) && w.mem[21] == 0
      && forall k :: 0 <= k < 12 ==> w.mem[k] == 0
  {
    var w := AppendString(mem, 12, X_TYPE);
    assert Same(mem, w.mem, 15, |mem|);
    LabelStays(mem, w.mem, 15, LOCAL);
    assert w.mem[12..15] == [2] + X_TYPE;
    assert w.mem[13..15] == w.mem[12..15][1..];
  }

  lemma SelfTypedIsGood()
    ensures GoodName(SELF_TYPED)
  {
    Stores(X_TYPE, EMPTY_NAME);
    Stores(LOCAL, EMPTY_NAME);
  }

  /** The writer's two cases, once. */
  lemma AppendMisses(mem: seq<byte>, index: nat, strings: seq<seq<byte>>)
    requires Memory(mem) && index <= PACKET && strings != []
    requires FindMatch(mem, 0, index, strings).None? && AppendString(mem, index, strings[0]).ret != 0
    ensures var w := AppendString(mem, index, strings[0]);
      var r := Append(w.mem, w.index, strings[1..]);
      Append(mem, index, strings) == Out(r.mem, r.index, (w.ret + r.ret) % 0x1_0000)
  {
    hide Accepts, FindMatch, AppendString, Put;
  }

  lemma AppendHits(mem: seq<byte>, index: nat, strings: seq<seq<byte>>, loc: nat)
    requires Memory(mem) && index <= PACKET && strings != [] && FindMatch(mem, 0, index, strings) == Some(loc)
    ensures Append(mem, index, strings) == AppendU16(mem, index, NAME_REF + loc)
  {
  }

  /** No name starts among zero bytes. */
  lemma NothingYet(mem: seq<byte>, index: nat, strings: seq<seq<byte>>)
    requires Memory(mem) && index <= PACKET && strings != [] && 0 < |strings[0]| < 64
    requires forall k :: 0 <= k < 12 ==> mem[k] == 0
    ensures forall k :: 0 <= k < 12 && k < index ==> !Accepts(mem, k, strings)
    ensures index <= 12 ==> FindMatch(mem, 0, index, strings).None?
  {
  }

  lemma SelfMatch(mem: seq<byte>)
    requires Memory(mem) && (forall k :: 0 <= k < 12 ==> mem[k] == 0)
    requires LabelAt(mem, 12, X_TYPE) && LabelAt(mem, 15, LOCAL) && mem[21] == 0
    ensures FindMatch(mem, 0, 15, [X_TYPE, LOCAL]) == Some(12)
  {
    hide Read, Store;
    var a := EMPTY_NAME.(fields := [X_TYPE, [], [], []], parts := 1);
    Stores(X_TYPE, EMPTY_NAME);
    Stores(LOCAL, a);
    ReadsLabel(mem, 12, 12, X_TYPE, EMPTY_NAME);
    ReadsLabel(mem, 12, 15, LOCAL, a);
    assert EMPTY_NAME.fields[0 := X_TYPE] == a.fields && a.fields[1 := LOCAL] == [X_TYPE, LOCAL, [], []];
    ReadsEnd(mem, 12, 21, a.(fields := [X_TYPE, LOCAL, [], []], parts := 2));
    NothingYet(mem, 15, [X_TYPE, LOCAL]);
    assert X_TYPE[..2] == X_TYPE;
    assert Accepts(mem, 12, [X_TYPE, LOCAL]);
  }

  lemma SelfPointer(mem: seq<byte>, later: seq<byte>)
    requires Memory(mem) && Memory(later) && LabelAt(mem, 12, X_TYPE)
    requires later == Put(mem, 15, U16(NAME_REF + 12))
    ensures Read(later, PACKET, 12, 12, EMPTY_NAME).0.None?
  {
    LabelStays(mem, later, 12, X_TYPE);
    Stores(X_TYPE, EMPTY_NAME);
    ReadsLabel(later, 12, 12, X_TYPE, EMPTY_NAME);
    PointerBits(12);
    assert Target(later, 15) == 12;
  }

  const LOCAL_HOST: seq<seq<byte>> := [LOCAL, LOCAL]

  /** A host that is called "local" needs no old bytes: the end of the name is found at its
      beginning. In an empty packet it is written in eight bytes and points to itself. */
  lemma HostCalledLocal(mem: seq<byte>)
    requires Memory(mem) && forall k :: 0 <= k < PACKET ==> mem[k] == 0
    ensures GoodName(LOCAL_HOST) && Complete(mem, 12, 12, LOCAL_HOST, NO_HOLE) && !PointsBack(mem, 12, 12, LOCAL_HOST)
    ensures var w := Append(mem, 12, LOCAL_HOST);
      w.ret == 8 && w.index == 20 && Read(w.mem, PACKET, 12, 12, EMPTY_NAME).0.None?
  {
    hide Accepts, Read, Append, AppendString, FindMatch, Settled, LabelAt, Put, EqNoCase, U16;
    LocalIsGood();
    NothingYet(mem, 12, LOCAL_HOST);
    LocalWritten(mem);
    var w := AppendString(mem, 12, LOCAL);
    AppendMisses(mem, 12, LOCAL_HOST);
    assert LOCAL_HOST[1..] == [LOCAL];
    LocalMatches(w.mem);
    AppendHits(w.mem, 18, [LOCAL], 12);
    LocalPointer(w.mem, AppendU16(w.mem, 18, NAME_REF + 12).mem);
  }

  lemma LocalIsGood()
    ensures GoodName(LOCAL_HOST)
  {
    Stores(LOCAL, EMPTY_NAME);
  }

  lemma LocalWritten(mem: seq<byte>)
    requires Memory(mem) && forall k :: 0 <= k < PACKET ==> mem[k] == 0
    ensures var w := AppendString(mem, 12, LOCAL);
      && w.index == 18 && w.ret == 6 && w.mem[18] == 0 && LabelAt(w.mem, 12, LOCAL)
      && forall k :: 0 <= k < 12 ==> w.mem[k] == 0
  {
    var w := AppendString(mem, 12, LOCAL);
    assert w.mem[12..18] == [5] + LOCAL;
    assert w.mem[13..18] == w.mem[12..18][1..];
  }

  lemma LocalMatches(mem: seq<byte>)
    requires Memory(mem) && (forall k :: 0 <= k < 12 ==> mem[k] == 0) && LabelAt(mem, 12, LOCAL) && mem[18] == 0
    ensures FindMatch(mem, 0, 18, [LOCAL]) == Some(12)
  {
    hide Read, Store;
    Stores(LOCAL, EMPTY_NAME);
    ReadsLabel(mem, 12, 12, LOCAL, EMPTY_NAME);
    assert EMPTY_NAME.fields[0 := LOCAL] == [LOCAL, [], [], []];
    ReadsEnd(mem, 12, 18, EMPTY_NAME.(fields := [LOCAL, [], [], []], parts := 1));
    NothingYet(mem, 18, [LOCAL]);
    assert LOCAL[..5] == LOCAL;
    assert Accepts(mem, 12, [LOCAL]);
  }

  lemma LocalPointer(mem: seq<byte>, later: seq<byte>)
    requires Memory(mem) && Memory(later) && LabelAt(mem, 12, LOCAL)
    requires later == Put(mem, 18, U16(NAME_REF + 12))
    ensures Read(later, PACKET, 12, 12, EMPTY_NAME).0.None?
  {
    LabelStays(mem, later, 12, LOCAL);
    Stores(LOCAL, EMPTY_NAME);
    ReadsLabel(later, 12, 12, LOCAL, EMPTY_NAME);
    PointerBits(12);
    assert Target(later, 18) == 12;
  }

  const INSTANCE: seq<seq<byte>> := [X, HTTP, TCP, LOCAL]

  /** The owner name of a subtype record, x._sub._http._tcp.local, at offset 12. */
  ghost predicate SubtypeOwner(mem: seq<byte>) {
    && LabelAt(mem, 12, X) && LabelAt(mem, 14, SUB) && LabelAt(mem, 19, HTTP) && LabelAt(mem, 25, TCP)
    && LabelAt(mem, 30, LOCAL) && 36 < |mem| && mem[36] == 0
  }

  /** An instance that is called like a subtype of its own service is compressed to the
      subtype's name: two bytes that point to five labels instead of four. */
  lemma SubtypeAlias(mem: seq<byte>, index: nat)
    requires Memory(mem) && 37 <= index < PACKET - 1
    requires (forall k :: 0 <= k < 12 ==> mem[k] == 0) && SubtypeOwner(mem)
    ensures GoodName(INSTANCE)
    ensures Append(mem, index, INSTANCE) == AppendU16(mem, index, NAME_REF + 12)
    ensures Decode(mem, PACKET, 12, 12).Some?
    ensures Labels(Decode(mem, PACKET, 12, 12).value.tokens) == [X, SUB, HTTP, TCP, LOCAL]
    ensures Aliased(mem, index, INSTANCE) && !SameCount(mem, index, INSTANCE)
  {
    hide Read, Decode, Append, Store;
    Stores(HTTP, EMPTY_NAME);
    Stores(TCP, EMPTY_NAME);
    Stores(X, EMPTY_NAME);
    Stores(LOCAL, EMPTY_NAME);
    SubtypeDecodes(mem);
    SubtypeReads(mem);
    NothingYet(mem, index, INSTANCE);
    assert mem[13..14] == X && X[..1] == X;
    assert Lower(TCP[1]) != Lower(SUB[1]);
    assert GoodName(INSTANCE);
    assert Accepts(mem, 12, INSTANCE);
    assert FindMatch(mem, 0, index, INSTANCE) == Some(12);
    AppendHits(mem, index, INSTANCE, 12);
  }

  lemma DecodesTo(mem: seq<byte>, at: nat, word: seq<byte>)
    requires Memory(mem) && LabelAt(mem, at, word) && 0 < |word| <= 63 && at + 1 + |word| <= PACKET
    requires Decode(mem, PACKET, 12, at + 1 + |word|).Some?
    ensures Decode(mem, PACKET, 12, at).Some?
    ensures var d, r := Decode(mem, PACKET, 12, at).value, Decode(mem, PACKET, 12, at + 1 + |word|).value;
      Labels(d.tokens) == [word] + Labels(r.tokens)
  {
    var r := Decode(mem, PACKET, 12, at + 1 + |word|).value;
    assert ([Label(word)] + r.tokens)[1..] == r.tokens;
  }

  lemma SubtypeDecodes(mem: seq<byte>)
    requires Memory(mem) && SubtypeOwner(mem)
    ensures Decode(mem, PACKET, 12, 12).Some?
    ensures Labels(Decode(mem, PACKET, 12, 12).value.tokens) == [X, SUB, HTTP, TCP, LOCAL]
  {
    EndDecodes(mem, PACKET, 12, 36);
    hide Decode, Labels, LabelAt;
    assert Labels([]) == [] by { NoLabels(); }
    DecodesTo(mem, 30, LOCAL);
    DecodesTo(mem, 25, TCP);
    DecodesTo(mem, 19, HTTP);
    DecodesTo(mem, 14, SUB);
    DecodesTo(mem, 12, X);
  }

  lemma NoLabels()
    ensures Labels([]) == []
  {
  }

  /** The reader files the four ordinary labels and only notes the marker. */
  lemma SubtypeReads(mem: seq<byte>)
    requires Memory(mem) && SubtypeOwner(mem)
    ensures Read(mem, PACKET, 12, 12, EMPTY_NAME) == (Some(37), Name(INSTANCE, 4, true, false))
  {
    hide Read, Store, LabelAt;
    var a := Name([X, [], [], []], 1, false, false);
    var b := Name([X, [], [], []], 1, true, false);
    var c := Name([X, HTTP, [], []], 2, true, false);
    var d := Name([X, HTTP, TCP, []], 3, true, false);
    assert EMPTY_NAME.fields[0 := X] == a.fields && b.fields[1 := HTTP] == c.fields;
    assert c.fields[2 := TCP] == d.fields && d.fields[3 := LOCAL] == INSTANCE;
    Stores(X, EMPTY_NAME);
    ReadsLabel(mem, 12, 12, X, EMPTY_NAME);
    StoresMarker(a);
    ReadsLabel(mem, 12, 14, SUB, a);
    Stores(HTTP, b);
    ReadsLabel(mem, 12, 19, HTTP, b);
    Stores(TCP, c);
    ReadsLabel(mem, 12, 25, TCP, c);
    Stores(LOCAL, d);
    ReadsLabel(mem, 12, 30, LOCAL, d);
    ReadsEnd(mem, 12, 36, Name([X, HTTP, TCP, LOCAL], 4, true, false));
  }
}
