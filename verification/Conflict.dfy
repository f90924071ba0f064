/** Who keeps a contested name: the comparison of SRV and TXT data (compare section 8.2 of
    RFC 6762; the source orders by length first). */
module Conflict {
  import opened Octets
  import opened NameWriter
  import opened Records
  import opened Txt

  // ---------------------------------------------------------------------
  // The order.

  /** The sign of memcmp on strings of one length. */
  function Compare(a: seq<byte>, b: seq<byte>): (r: int) {
    if a == [] || b == [] then 0
    else if a[0] < b[0] then -1
    else if a[0] > b[0] then 1
    else Compare(a[1..], b[1..])
  }

  /** Shorter data come first, data of one length are ordered byte by byte. */
  function Order(a: seq<byte>, b: seq<byte>): (r: int) {
    if |a| < |b| then -1 else if |a| > |b| then 1 else Compare(a, b)
  }

  lemma {:induction false} CompareOpposite(a: seq<byte>, b: seq<byte>)
    ensures Compare(a, b) == -Compare(b, a) && -1 <= Compare(a, b) <= 1
  {
    if a != [] && b != [] {
      CompareOpposite(a[1..], b[1..]);
    }
  }

  lemma {:induction false} CompareSame(a: seq<byte>, b: seq<byte>)
    requires |a| == |b|
    ensures Compare(a, b) == 0 <==> a == b
  {
    if a != [] {
      CompareSame(a[1..], b[1..]);
      assert a == [a[0]] + a[1..] && b == [b[0]] + b[1..];
    }
  }

  lemma {:induction false} CompareTransitive(a: seq<byte>, b: seq<byte>, c: seq<byte>)
    requires |a| == |b| == |c| && Compare(a, b) <= 0 && Compare(b, c) <= 0
    ensures Compare(a, c) <= 0
  {
    if a != [] && a[0] == b[0] == c[0] {
      CompareTransitive(a[1..], b[1..], c[1..]);
    }
  }

  /** The order is total and strict. */
  lemma OrderIsTotal(a: seq<byte>, b: seq<byte>)
    ensures Order(a, b) == -Order(b, a) && -1 <= Order(a, b) <= 1
    ensures Order(a, b) == 0 <==> a == b
  {
    CompareOpposite(a, b);
    if |a| == |b| {
      CompareSame(a, b);
    }
  }

  lemma OrderTransitive(a: seq<byte>, b: seq<byte>, c: seq<byte>)
    requires Order(a, b) <= 0 && Order(b, c) <= 0
    ensures Order(a, c) <= 0
  {
    if |a| == |b| == |c| {
      CompareTransitive(a, b, c);
    }
  }

  // ---------------------------------------------------------------------
  // SRV records.

  datatype SrvFields = SrvFields(priority: nat, weight: nat, port: nat, host: seq<byte>, domain: seq<byte>)

  /** The data that are compared: every length is one byte. */
  function SrvData(s: SrvFields): (d: seq<byte>)
    ensures |d| == 9 + |s.host| + |s.domain|
  {
    U16(s.priority) + U16(s.weight) + U16(s.port) + [|s.host| % 256] + s.host + [|s.domain| % 256] + s.domain + [0]
  }

  /** What a responder whose own record is `ours` concludes from a received record: 1 if they
      win, -1 if it wins itself, 0 if the records are the same or it has no host name yet. */
  function SrvVerdict(ours: SrvFields, theirs: SrvFields): int {
    if ours.host == [] then 0 else Order(SrvData(theirs), SrvData(ours))
  }

  ghost predicate Contender(s: SrvFields) {
    s.priority < 0x1_0000 && s.weight < 0x1_0000 && s.port < 0x1_0000 && s.host != [] && s.domain == LOCAL
  }

  lemma SrvSlices(s: SrvFields)
    ensures var d := SrvData(s);
      && d[0..2] == U16(s.priority) && d[2..4] == U16(s.weight) && d[4..6] == U16(s.port)
      && d[7..7 + |s.host|] == s.host
  {
    var front := U16(s.priority) + U16(s.weight) + U16(s.port) + [|s.host| % 256];
    assert SrvData(s) == front + (s.host + ([|s.domain| % 256] + s.domain + [0]));
    assert |front| == 7;
  }

  /** The data determine the record of a contender. */
  lemma SrvDataInjective(a: SrvFields, b: SrvFields)
    requires Contender(a) && Contender(b) && SrvData(a) == SrvData(b)
    ensures a == b
  {
    SrvSlices(a);
    SrvSlices(b);
    hide SrvData, U16;
    U16RoundTrip(a.priority);
    U16RoundTrip(b.priority);
    U16RoundTrip(a.weight);
    U16RoundTrip(b.weight);
    U16RoundTrip(a.port);
    U16RoundTrip(b.port);
  }

  /** Two contenders always come to opposite verdicts, and to none exactly when priority,
      weight, port and host are the same. */
  lemma SrvVerdictsOppose(a: SrvFields, b: SrvFields)
    requires Contender(a) && Contender(b)
    ensures SrvVerdict(a, b) == -SrvVerdict(b, a) && -1 <= SrvVerdict(a, b) <= 1
    ensures SrvVerdict(a, b) == 0 <==> a == b
  {
    OrderIsTotal(SrvData(a), SrvData(b));
    if SrvData(a) == SrvData(b) {
      SrvDataInjective(a, b);
    }
  }

  /** Who does not lose to b, which does not lose to c, does not lose to c. */
  lemma SrvVerdictTransitive(a: SrvFields, b: SrvFields, c: SrvFields)
    requires Contender(a) && Contender(b) && Contender(c) && SrvVerdict(a, b) <= 0 && SrvVerdict(b, c) <= 0
    ensures SrvVerdict(a, c) <= 0
  {
    OrderTransitive(SrvData(c), SrvData(b), SrvData(a));
  }

  /** Contender w does not lose to anybody. */
  ghost predicate NeverLoses(all: seq<SrvFields>, w: nat) {
    w < |all| && forall i :: 0 <= i < |all| ==> SrvVerdict(all[w], all[i]) <= 0
  }

  lemma {:induction false} SomeoneNeverLoses(all: seq<SrvFields>) returns (w: nat)
    requires all != [] && forall i :: 0 <= i < |all| ==> Contender(all[i])
    ensures NeverLoses(all, w)
  {
    if |all| == 1 {
      w := 0;
      SrvVerdictsOppose(all[0], all[0]);
    } else {
      var n := |all| - 1;
      w := SomeoneNeverLoses(all[..n]);
      hide SrvVerdict, Contender;
      SrvVerdictsOppose(all[n], all[n]);
      SrvVerdictsOppose(all[w], all[n]);
      if SrvVerdict(all[w], all[n]) > 0 {
        forall i | 0 <= i < n ensures SrvVerdict(all[n], all[i]) <= 0 {
          assert SrvVerdict(all[..n][w], all[..n][i]) <= 0;
          SrvVerdictTransitive(all[n], all[w], all[i]);
        }
        w := n;
      } else {
        assert forall i :: 0 <= i < n ==> SrvVerdict(all[..n][w], all[..n][i]) <= 0;
        assert forall i :: 0 <= i < n ==> all[..n][i] == all[i];
      }
    }
  }

  /** Among contenders that all differ there is exactly one winner. */
  lemma OneWinner(all: seq<SrvFields>) returns (w: nat)
    requires all != [] && forall i :: 0 <= i < |all| ==> Contender(all[i])
    requires forall i, j :: 0 <= i < j < |all| ==> all[i] != all[j]
    ensures NeverLoses(all, w) && forall v: nat :: NeverLoses(all, v) ==> v == w
  {
    w := SomeoneNeverLoses(all);
    forall v: nat | NeverLoses(all, v) ensures v == w {
      SrvVerdictsOppose(all[v], all[w]);
    }
  }

  // ---------------------------------------------------------------------
  // Who wins.

  /** The first byte in which they differ is less. */
  ghost predicate LessAt(a: seq<byte>, b: seq<byte>, k: int) {
    0 <= k < |a| && k < |b| && a[..k] == b[..k] && a[k] < b[k]
  }

  lemma {:induction false} CompareMeans(a: seq<byte>, b: seq<byte>)
    requires |a| == |b|
    ensures Compare(a, b) < 0 <==> exists k :: LessAt(a, b, k)
  {
    if a != [] {
      CompareMeans(a[1..], b[1..]);
      if a[0] < b[0] {
        assert LessAt(a, b, 0);
      } else if a[0] == b[0] {
        if Compare(a, b) < 0 {
          var k :| LessAt(a[1..], b[1..], k);
          assert a[..k + 1] == [a[0]] + a[1..][..k] && b[..k + 1] == [b[0]] + b[1..][..k];
          assert LessAt(a, b, k + 1);
        }
        if k :| LessAt(a, b, k) {
          assert k > 0 && a[1..][..k - 1] == a[..k][1..] && b[1..][..k - 1] == b[..k][1..];
          assert LessAt(a[1..], b[1..], k - 1);
        }
      } else {
        FirstIsMore(a, b);
      }
    }
  }

  lemma FirstIsMore(a: seq<byte>, b: seq<byte>)
    requires a != [] && b != [] && a[0] > b[0]
    ensures forall k :: !LessAt(a, b, k)
  {
    forall k ensures !LessAt(a, b, k) {
      assert 0 < k <= |a| && k <= |b| ==> a[..k][0] == a[0] && b[..k][0] == b[0];
    }
  }

  lemma {:induction false} CompareSplit(a: seq<byte>, b: seq<byte>, c: seq<byte>, d: seq<byte>)
    requires |a| == |b|
    ensures Compare(a + c, b + d) == if Compare(a, b) != 0 then Compare(a, b) else Compare(c, d)
  {
    if a == [] {
      assert a + c == c && b + d == d;
    } else {
      CompareSplit(a[1..], b[1..], c, d);
      assert (a + c)[1..] == a[1..] + c && (b + d)[1..] == b[1..] + d;
    }
  }

  lemma OneByte(x: byte, y: byte)
    ensures Compare([x], [y]) == if x < y then -1 else if x > y then 1 else 0
  {
    assert [x][1..] == [];
  }

  lemma CompareNumbers(x: nat, y: nat)
    requires x < 0x1_0000 && y < 0x1_0000
    ensures Compare(U16(x), U16(y)) == if x < y then -1 else if x > y then 1 else 0
  {
    var a, b := U16(x), U16(y);
    assert x == 256 * (a[0] as int) + a[1] && y == 256 * (b[0] as int) + b[1];
    assert a[1..] == [a[1]] && b[1..] == [b[1]];
    OneByte(a[1], b[1]);
  }

  /** The record with the lesser priority, weight, port and host, in this order, for hosts of
      one length. */
  ghost predicate Before(a: SrvFields, b: SrvFields) {
    || a.priority < b.priority
    || (a.priority == b.priority &&
         (a.weight < b.weight
          || (a.weight == b.weight && (a.port < b.port || (a.port == b.port && exists k :: LessAt(a.host, b.host, k))))))
  }

  /** A contender loses to one with a longer host, or with a host of the same length and greater
      priority, weight, port or host. Without a host name of its own it comes to no verdict. */
  lemma SrvVerdictMeans(ours: SrvFields, theirs: SrvFields)
    requires Contender(ours) && Contender(theirs)
    ensures SrvVerdict(ours, theirs) > 0
            <==> |theirs.host| > |ours.host| || (|theirs.host| == |ours.host| && Before(ours, theirs))
    ensures SrvVerdict(ours.(host := []), theirs) == 0
  {
    hide Compare, LessAt, U16, SrvData;
    if |theirs.host| == |ours.host| {
      SrvCompare(ours, theirs);
      CompareOpposite(SrvData(ours), SrvData(theirs));
      CompareMeans(ours.host, theirs.host);
    }
  }

  lemma SrvCompare(a: SrvFields, b: SrvFields)
    requires Contender(a) && Contender(b) && |a.host| == |b.host|
    ensures Compare(SrvData(a), SrvData(b)) ==
      if a.priority != b.priority then (if a.priority < b.priority then -1 else 1)
      else if a.weight != b.weight then (if a.weight < b.weight then -1 else 1)
      else if a.port != b.port then (if a.port < b.port then -1 else 1)
      else Compare(a.host, b.host)
  {
    hide Compare, U16;
    var len, last := [|a.host| % 256], [5] + LOCAL + [0];
    var a1, b1 := len + (a.host + last), len + (b.host + last);
    assert SrvData(a) == U16(a.priority) + (U16(a.weight) + (U16(a.port) + a1));
    assert SrvData(b) == U16(b.priority) + (U16(b.weight) + (U16(b.port) + b1));
    CompareSplit(U16(a.priority), U16(b.priority), U16(a.weight) + (U16(a.port) + a1), U16(b.weight) + (U16(b.port) + b1));
    CompareSplit(U16(a.weight), U16(b.weight), U16(a.port) + a1, U16(b.port) + b1);
    CompareSplit(U16(a.port), U16(b.port), a1, b1);
    CompareSplit(len, len, a.host + last, b.host + last);
    CompareSplit(a.host, b.host, last, last);
    CompareNumbers(a.priority, b.priority);
    CompareNumbers(a.weight, b.weight);
    CompareNumbers(a.port, b.port);
    CompareSame(len, len);
    CompareSame(last, last);
    CompareSame(a.host, b.host);
  }

  // ---------------------------------------------------------------------
  // The order of the standard.

  /** Section 8.2 of RFC 6762: byte by byte, and the data that run out first come first. */
  function RfcOrder(a: seq<byte>, b: seq<byte>): int {
    if a == [] && b == [] then 0
    else if a == [] then -1
    else if b == [] then 1
    else if a[0] < b[0] then -1
    else if a[0] > b[0] then 1
    else RfcOrder(a[1..], b[1..])
  }

  /** The source agrees with the standard on data of one length. */
  lemma {:induction false} RfcOnSameLength(a: seq<byte>, b: seq<byte>)
    requires |a| == |b|
    ensures Order(a, b) == RfcOrder(a, b)
  {
    if a != [] {
      RfcOnSameLength(a[1..], b[1..]);
    }
  }

  /** Priority, weight and port, as they stand in front of the data. */
  function Front(s: SrvFields): (d: seq<byte>)
    ensures |d| == 6
  {
    U16(s.priority) + U16(s.weight) + U16(s.port)
  }

  lemma {:induction false} RfcSplit(a: seq<byte>, b: seq<byte>, c: seq<byte>, d: seq<byte>)
    requires |a| == |b|
    ensures RfcOrder(a + c, b + d) == if Compare(a, b) != 0 then Compare(a, b) else RfcOrder(c, d)
  {
    if a == [] {
      assert a + c == c && b + d == d;
    } else {
      RfcSplit(a[1..], b[1..], c, d);
      assert (a + c)[1..] == a[1..] + c && (b + d)[1..] == b[1..] + d;
    }
  }

  /** On data of different lengths it agrees if and only if priority, weight and port of the
      shorter host do not come behind those of the longer one. */
  lemma RfcOnShorterHost(a: SrvFields, b: SrvFields)
    requires Contender(a) && Contender(b) && |a.host| < |b.host| < 256
    ensures Order(SrvData(a), SrvData(b)) == RfcOrder(SrvData(a), SrvData(b)) <==> Compare(Front(a), Front(b)) <= 0
  {
    hide Compare, U16;
    var x := [|a.host| % 256] + a.host + [|a.domain| % 256] + a.domain + [0];
    var y := [|b.host| % 256] + b.host + [|b.domain| % 256] + b.domain + [0];
    assert SrvData(a) == Front(a) + x && SrvData(b) == Front(b) + y;
    assert RfcOrder(x, y) == -1;
    RfcSplit(Front(a), Front(b), x, y);
    CompareOpposite(Front(a), Front(b));
  }

  /** A lower port in front of a longer host loses by the standard and wins here. */
  lemma RfcDiffers()
    ensures var a, b := SrvFields(0, 0, 1, [97, 97], LOCAL), SrvFields(0, 0, 2, [97], LOCAL);
      Contender(a) && Contender(b) && SrvVerdict(a, b) == -1 && RfcOrder(SrvData(a), SrvData(b)) == -1
  {
    var a, b := SrvFields(0, 0, 1, [97, 97], LOCAL), SrvFields(0, 0, 2, [97], LOCAL);
    var x, y := SrvData(a), SrvData(b);
    assert x[..6] == [0, 0, 0, 0, 0, 1] && y[..6] == [0, 0, 0, 0, 0, 2];
    RfcPrefix(x, y, 5);
  }

  lemma {:induction false} RfcPrefix(a: seq<byte>, b: seq<byte>, k: nat)
    requires k < |a| && k < |b| && a[..k] == b[..k] && a[k] < b[k]
    ensures RfcOrder(a, b) == -1
  {
    if k > 0 {
      assert a[0] == a[..k][0] == b[..k][0] == b[0];
      assert a[1..][..k - 1] == a[..k][1..] && b[1..][..k - 1] == b[..k][1..];
      RfcPrefix(a[1..], b[1..], k - 1);
    }
  }

  // ---------------------------------------------------------------------
  // TXT records.

  /** The data of the TXT record of these entries. */
  function TxtRecordData(items: seq<TxtItem>): seq<byte> {
    if items == [] then [0] else Encode(items)
  }

  /** `_mdns_check_txt_collision`. */
  function TxtVerdict(ours: seq<TxtItem>, data: seq<byte>): int {
    if |data| == 1 && ours != [] then -1
    else if |data| > 1 && ours == [] then 1
    else if |data| == 1 && ours == [] then 0
    else Order(data, Encode(ours))
  }

  /** The one entry list whose data look like those of an empty list. */
  predicate LooksEmpty(items: seq<TxtItem>) {
    items == [TxtItem([], None)]
  }

  lemma {:induction false} EncodeLength(items: seq<TxtItem>)
    ensures |Encode(items)| >= |items|
    ensures items != [] ==> (|Encode(items)| == 1 <==> LooksEmpty(items))
  {
    if items != [] {
      EncodeLength(items[1..]);
      assert |Encode(items)| == 1 + |EntryText(items[0])| + |Encode(items[1..])|;
      if |Encode(items)| == 1 {
        assert items[0] == TxtItem([], None) && items[1..] == [];
        assert items == [items[0]];
      }
      if LooksEmpty(items) {
        assert items[1..] == [] && EntryText(items[0]) == [];
      }
    }
  }

  /** Two responders come to opposite verdicts on their TXT records, and to none exactly when
      the data are the same, unless one has a single entry without key and value and the
      other has the same or none. */
  lemma TxtVerdictsOppose(a: seq<TxtItem>, b: seq<TxtItem>)
    ensures TxtVerdict(a, TxtRecordData(b)) == -TxtVerdict(b, TxtRecordData(a))
            <==> !((LooksEmpty(a) && (b == [] || LooksEmpty(b))) || (a == [] && LooksEmpty(b)))
    ensures TxtVerdict(a, TxtRecordData(b)) == -TxtVerdict(b, TxtRecordData(a)) ==>
      (TxtVerdict(a, TxtRecordData(b)) == 0 <==> TxtRecordData(a) == TxtRecordData(b))
  {
    EncodeLength(a);
    EncodeLength(b);
    OrderIsTotal(Encode(b), Encode(a));
    hide Encode, Compare;
  }

  /** A service with entries loses to longer data, and to data of the same length that are
      greater at the first difference; it never loses to a single byte. Without entries it
      loses to everything longer than that byte. */
  lemma TxtVerdictMeans(ours: seq<TxtItem>, data: seq<byte>)
    ensures TxtVerdict(ours, data) > 0 <==>
      |data| != 1 && if ours == [] then |data| > 1
                     else |data| > |Encode(ours)| || (|data| == |Encode(ours)| && exists k :: LessAt(Encode(ours), data, k))
    ensures TxtVerdict(ours, data) == 0 <==>
      if ours == [] then |data| <= 1 else |data| != 1 && data == Encode(ours)
  {
    hide Encode, Compare, LessAt;
    NoneEncoded();
    OrderIsTotal(data, Encode(ours));
    if |data| == |Encode(ours)| {
      CompareOpposite(data, Encode(ours));
      CompareMeans(Encode(ours), data);
    }
  }

  /** A service without entries and one whose only entry has neither key nor value send the
      same byte; the first sees no conflict, the second claims to win. */
  lemma EmptyEntryVerdicts()
    ensures TxtRecordData([]) == TxtRecordData([TxtItem([], None)]) == [0]
    ensures TxtVerdict([], [0]) == 0 && TxtVerdict([TxtItem([], None)], [0]) == -1
  {
    var items := [TxtItem([], None)];
    assert items[1..] == [] && EntryText(items[0]) == [];
    assert Encode(items) == [0] + ([] + []);
  }

  /** The local buffer after the entries have been written to it from index on; an entry that
      would not fit in a packet is left out. */
  function Buffered(buffer: seq<byte>, index: nat, items: seq<TxtItem>): (r: seq<byte>)
    requires index + |Encode(items)| <= |buffer|
    ensures |r| == |buffer|
    decreases |items|
  {
    if items == [] then buffer
    else
      var text := EntryText(items[0]);
      if index + |text| + 1 >= PACKET then Buffered(buffer, index, items[1..])
      else Buffered(Put(buffer, index, [|text| % 256] + text), index + |text| + 1, items[1..])
  }

  /** `_mdns_check_txt_collision` with a local buffer that holds junk at first. */
  function BufferVerdict(ours: seq<TxtItem>, data: seq<byte>, junk: seq<byte>): int
    requires |junk| == |data|
  {
    if |data| == 1 || ours == [] || |data| != |Encode(ours)| then TxtVerdict(ours, data)
    else Compare(data, Buffered(junk, 0, ours))
  }

  lemma PutEnds(buffer: seq<byte>, index: nat, s: seq<byte>)
    requires index + |s| <= |buffer|
    ensures Put(buffer, index, s)[..index + |s|] == buffer[..index] + s
  {
  }

  lemma {:induction false} BufferedAll(buffer: seq<byte>, index: nat, items: seq<TxtItem>)
    requires index + |Encode(items)| == |buffer| < PACKET
    ensures Buffered(buffer, index, items) == buffer[..index] + Encode(items)
    decreases |items|
  {
    hide EntryText, Encode, Put;
    if items == [] {
      NoneEncoded();
      assert buffer[..index] == buffer;
    } else {
      var text := EntryText(items[0]);
      var entry := [|text| % 256] + text;
      EncodeCons(items);
      PutEnds(buffer, index, entry);
      BufferedAll(Put(buffer, index, entry), index + |text| + 1, items[1..]);
      assert buffer[..index] + entry + Encode(items[1..]) == buffer[..index] + Encode(items);
    }
  }

  /** The limit does not matter to data that come in a packet. */
  lemma BufferVerdictIs(ours: seq<TxtItem>, data: seq<byte>, junk: seq<byte>)
    requires |junk| == |data| && (|data| < PACKET || |data| != |Encode(ours)|)
    ensures BufferVerdict(ours, data, junk) == TxtVerdict(ours, data)
  {
    hide Encode, Buffered;
    if |data| == |Encode(ours)| && |data| != 1 && ours != [] {
      BufferedAll(junk, 0, ours);
      assert junk[..0] + Encode(ours) == Encode(ours);
    }
  }

  /** One entry of the length of a packet is left out, and the junk is compared. */
  lemma LongEntryIsLeftOut(item: TxtItem, data: seq<byte>, junk: seq<byte>)
    requires |junk| == |data| == |EntryText(item)| + 1 >= PACKET
    ensures BufferVerdict([item], data, junk) == Compare(data, junk)
  {
    hide EntryText, Encode, Put, Compare;
    EncodeCons([item]);
    NoneEncoded();
    assert [item][1..] == [] && |Encode([item])| == |data|;
    assert Buffered(junk, 0, [item]) == Buffered(junk, 0, [item][1..]) == junk;
  }

  // ---------------------------------------------------------------------
  // The checks as the source runs them.

  /** memcmp, by its sign. */
  method MemCmp(a: array<byte>, b: array<byte>) returns (r: int)
    requires a.Length == b.Length
    ensures r == Compare(a[..], b[..])
  {
    var i := 0;
    while i < a.Length
      invariant i <= a.Length && Compare(a[i..], b[i..]) == Compare(a[..], b[..])
    {
      assert a[i..][1..] == a[i + 1..] && b[i..][1..] == b[i + 1..];
      if a[i] != b[i] {
        return if a[i] < b[i] then -1 else 1;
      }
      i := i + 1;
    }
    return 0;
  }

  /** Bytes that are appended to a local buffer. */
  method PutBytes(buffer: array<byte>, index: nat, s: seq<byte>) returns (end: nat)
    requires index + |s| <= buffer.Length
    modifies buffer
    ensures end == index + |s| && buffer[..end] == old(buffer[..index]) + s
  {
    var i := 0;
    while i < |s|
      invariant i <= |s| && buffer[..index + i] == old(buffer[..index]) + s[..i]
    {
      buffer[index + i] := s[i];
      assert buffer[..index + i + 1] == buffer[..index + i] + [s[i]];
      assert s[..i + 1] == s[..i] + [s[i]];
      i := i + 1;
    }
    end := index + |s|;
    assert s[..|s|] == s;
  }

  method SrvBytes(s: SrvFields) returns (data: array<byte>)
    ensures fresh(data) && data[..] == SrvData(s)
  {
    data := new byte[9 + |s.host| + |s.domain|];
    hide U16, SrvData;
    assert data[..0] == [];
    var index := PutBytes(data, 0, U16(s.priority));
    index := PutBytes(data, index, U16(s.weight));
    index := PutBytes(data, index, U16(s.port));
    index := PutBytes(data, index, [|s.host| % 256]);
    index := PutBytes(data, index, s.host);
    index := PutBytes(data, index, [|s.domain| % 256]);
    index := PutBytes(data, index, s.domain);
    index := PutBytes(data, index, [0]);
    assert data[..] == data[..index];
    SrvDataIs(s);
  }

  lemma SrvDataIs(s: SrvFields)
    ensures SrvData(s) == [] + U16(s.priority) + U16(s.weight) + U16(s.port) + [|s.host| % 256] + s.host
                          + [|s.domain| % 256] + s.domain + [0]
  {
    assert [] + U16(s.priority) == U16(s.priority);
  }

  /** `_mdns_check_srv_collision`. */
  method CheckSrvCollision(ours: SrvFields, theirs: SrvFields) returns (r: int)
    requires ours.domain == LOCAL
    ensures r == SrvVerdict(ours, theirs)
  {
    if ours.host == [] {
      return 0;
    }
    var ourLen := 14 + |ours.host|;
    var theirLen := 9 + |theirs.host| + |theirs.domain|;
    if theirLen > ourLen {
      return 1;
    } else if theirLen < ourLen {
      return -1;
    }
    var ourData := SrvBytes(ours);
    var theirData := SrvBytes(theirs);
    var ret := MemCmp(ourData, theirData);
    CompareOpposite(SrvData(ours), SrvData(theirs));
    return if ret > 0 then -1 else if ret < 0 then 1 else 0;
  }

  function DataLength(items: seq<TxtItem>): nat {
    if items == [] then 0 else 1 + |EntryText(items[0])| + DataLength(items[1..])
  }

  lemma {:induction false} DataLengthIs(items: seq<TxtItem>)
    ensures DataLength(items) == |Encode(items)|
  {
    if items != [] {
      DataLengthIs(items[1..]);
    }
  }

  /** The first loop: how long the data of the entries are. */
  method TxtLength(items: seq<TxtItem>) returns (n: nat)
    ensures n == |Encode(items)|
  {
    var i := 0;
    n := 0;
    while i < |items|
      invariant i <= |items| && n + DataLength(items[i..]) == DataLength(items)
    {
      assert items[i..][0] == items[i] && items[i..][1..] == items[i + 1..];
      n := n + 1 + |items[i].key| + if items[i].value.Some? then |items[i].value.value| + 1 else 0;
      i := i + 1;
    }
    DataLengthIs(items);
  }

  lemma BufferedNext(buffer: seq<byte>, index: nat, items: seq<TxtItem>, i: nat)
    requires i < |items| && index + |Encode(items[i..])| <= |buffer|
    ensures var text := EntryText(items[i]);
      var end := index + |text| + 1;
      && end <= |buffer| && end + |Encode(items[i + 1..])| <= |buffer|
      && Buffered(buffer, index, items[i..])
         == if end >= PACKET then Buffered(buffer, index, items[i + 1..])
            else Buffered(Put(buffer, index, [|text| % 256] + text), end, items[i + 1..])
  {
    assert items[i..][0] == items[i] && items[i..][1..] == items[i + 1..];
  }

  /** `append_one_txt_record_entry` on the local buffer. */
  method PutEntry(buffer: array<byte>, index: nat, text: seq<byte>) returns (end: nat)
    requires index + 1 + |text| <= buffer.Length
    modifies buffer
    ensures index + |text| + 1 >= PACKET ==> end == index && buffer[..] == old(buffer[..])
    ensures index + |text| + 1 < PACKET ==>
      end == index + |text| + 1 && buffer[..] == Put(old(buffer[..]), index, [|text| % 256] + text)
  {
    if index + |text| + 1 >= PACKET {
      return index;
    }
    var entry := [|text| % 256] + text;
    forall k | 0 <= k < |entry| {
      buffer[index + k] := entry[k];
    }
    assert buffer[..] == Put(old(buffer[..]), index, entry);
    return index + |text| + 1;
  }

  /** The second loop: the entries, in a buffer of just their length that held junk. */
  method TxtBytes(items: seq<TxtItem>, junk: seq<byte>) returns (ours: array<byte>)
    requires |junk| == |Encode(items)|
    ensures fresh(ours) && ours[..] == Buffered(junk, 0, items)
  {
    ours := new byte[|junk|](k requires 0 <= k < |junk| => junk[k]);
    var index: nat, i: nat := 0, 0;
    assert items[0..] == items && ours[..] == junk;
    while i < |items|
      invariant i <= |items| && index + |Encode(items[i..])| <= ours.Length
      invariant Buffered(ours[..], index, items[i..]) == Buffered(junk, 0, items)
    {
      BufferedNext(ours[..], index, items, i);
      hide Encode, EntryText, Buffered, Put;
      index := PutEntry(ours, index, EntryText(items[i]));
      i := i + 1;
    }
    assert items[i..] == [];
  }

  /** `_mdns_check_txt_collision`; junk is what the local buffer holds at first. */
  method CheckTxtCollision(items: seq<TxtItem>, data: array<byte>, junk: seq<byte>) returns (r: int)
    requires |junk| == data.Length
    ensures r == BufferVerdict(items, data[..], junk)
    ensures data.Length < PACKET ==> r == TxtVerdict(items, data[..])
  {
    hide Encode, Compare, Buffered;
    var len := data.Length;
    if data.Length < PACKET {
      BufferVerdictIs(items, data[..], junk);
    }
    if len == 1 && items != [] {
      return -1;
    } else if len > 1 && items == [] {
      return 1;
    } else if len == 1 && items == [] {
      return 0;
    }
    var dataLen := TxtLength(items);
    if len > dataLen {
      return 1;
    } else if len < dataLen {
      return -1;
    }
    var ours := TxtBytes(items, junk);
    var ret := MemCmp(ours, data);
    CompareOpposite(ours[..], data[..]);
    NothingBuffered(junk, data[..]);
    return if ret > 0 then -1 else if ret < 0 then 1 else 0;
  }

  lemma NothingBuffered(junk: seq<byte>, data: seq<byte>)
    requires |junk| == |data|
    ensures data == [] ==> Buffered(junk, 0, []) == [] && Encode([]) == [] && Compare(data, []) == 0
  {
  }
}
