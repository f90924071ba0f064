/** TXT record data: the entry writer against the two passes of the parser
    (section 6 of RFC 6763). */
module Txt {
  import opened Octets
  import opened NameWriter
  import opened Records
  import opened RecordData

  // ---------------------------------------------------------------------
  // The parser.

  /** `_mdns_txt_items_count_get` from offset i: the number of entries, None on error. */
  function CountFrom(data: seq<byte>, i: nat): (r: Option<nat>)
    decreases |data| - i
  {
    if i >= |data| || data[i] == 0 then Some(0)
    else if i + 1 + data[i] > |data| then None
    else
      match CountFrom(data, i + 1 + data[i])
      case None => None
      case Some(n) => Some(n + 1)
  }

  /** Offset of the first '=', or the length. */
  function KeyLength(part: seq<byte>): (n: nat)
    ensures n <= |part| && EQUALS !in part[..n] && (n < |part| ==> part[n] == EQUALS)
  {
    if part == [] || part[0] == EQUALS then 0
    else
      assert part[0..1] == [part[0]];
      var n := KeyLength(part[1..]) + 1;
      assert part[..n] == [part[0]] + part[1..][..n - 1];
      n
  }

  /** What an item takes in the filling pass. */
  function Cost(item: TxtItem): nat {
    |item.key| + 2 + if item.value.Some? then |item.value.value| else 0
  }

  /** One entry of the filling pass: the item, unless it has no key, and where to go on.
      The key is followed by one byte that is skipped, the '=' if the entry has one. */
  function Entry(data: seq<byte>, i: nat): (r: (Option<TxtItem>, nat))
    requires i < |data| && data[i] != 0 && i + 1 + data[i] <= |data|
    ensures i < r.1 && (r.0.Some? ==> r.0.value.key != [] && r.1 == i + Cost(r.0.value) <= |data| + 1)
  {
    var part := data[i + 1..i + 1 + data[i]];
    var n := KeyLength(part);
    if n == 0 then (None, i + 1 + |part|)
    else if |part| > n + 1 then (Some(TxtItem(part[..n], Some(part[n + 1..]))), i + 1 + |part|)
    else (Some(TxtItem(part[..n], None)), i + n + 2)
  }

  /** The filling pass of `_mdns_result_txt_create` from offset i. */
  function FillFrom(data: seq<byte>, i: nat): (r: Option<seq<TxtItem>>)
    decreases |data| - i
  {
    if i >= |data| || data[i] == 0 then Some([])
    else if i + 1 + data[i] > |data| then None
    else
      var e := Entry(data, i);
      match FillFrom(data, e.1)
      case None => None
      case Some(rest) => Some((if e.0.Some? then [e.0.value] else []) + rest)
  }

  /** `_mdns_result_txt_create`: no items at all when either pass finds an error. */
  function ResultCreate(data: seq<byte>): seq<TxtItem> {
    if |data| == 1 || CountFrom(data, 0).None? || CountFrom(data, 0).value == 0 then []
    else
      match FillFrom(data, 0)
      case None => []
      case Some(items) => items
  }

  // ---------------------------------------------------------------------
  // The writer.

  /** The bytes of the entries, each after its length. */
  function Encode(items: seq<TxtItem>): seq<byte> {
    if items == [] then []
    else [|EntryText(items[0])| % 256] + (EntryText(items[0]) + Encode(items[1..]))
  }

  lemma EncodeCons(items: seq<TxtItem>)
    requires items != []
    ensures var text := EntryText(items[0]);
      Encode(items) == [|text| % 256] + text + Encode(items[1..])
  {
    hide EntryText;
  }

  lemma NoneEncoded()
    ensures Encode([]) == []
  {
  }

  lemma EntryWritten(mem: seq<byte>, index: nat, item: TxtItem)
    requires Memory(mem) && index <= PACKET && AppendEntry(mem, index, item).ret > 0
    ensures var e, text := AppendEntry(mem, index, item), EntryText(item);
      index < e.index <= PACKET && Memory(e.mem) && e.mem[index..e.index] == [|text| % 256] + text
  {
    hide EntryText;
  }

  lemma SameUpTo(a: seq<byte>, b: seq<byte>, lo: nat, hi: nat)
    requires Same(a, b, 0, hi)
    ensures Same(a, b, lo, hi) && hi <= |b|
  {
  }

  lemma Glue(a: seq<byte>, b: seq<byte>, lo: nat, mid: nat, hi: nat)
    requires lo <= mid <= hi <= |b| && Same(a, b, lo, mid)
    ensures mid <= |a| && b[lo..hi] == a[lo..mid] + b[mid..hi]
  {
  }

  /** Entries that all fit are written as Encode says. */
  lemma {:induction false} EntriesWritten(mem: seq<byte>, index: nat, items: seq<TxtItem>)
    requires Memory(mem) && index <= PACKET && AppendEntries(mem, index, items).1
    ensures var r := AppendEntries(mem, index, items).0;
      index <= r.index && r.mem[index..r.index] == Encode(items)
    decreases |items|
  {
    hide EntryText, AppendEntry, Same, Encode;
    if items == [] {
      NoneEncoded();
    } else {
      EncodeCons(items);
      EntryWritten(mem, index, items[0]);
      var e := AppendEntry(mem, index, items[0]);
      var r := AppendEntries(e.mem, e.index, items[1..]).0;
      EntriesWritten(e.mem, e.index, items[1..]);
      EntriesFrame(e.mem, e.index, items[1..]);
      Glue(e.mem, r.mem, index, e.index, r.index) by { SameUpTo(e.mem, r.mem, index, e.index); }
    }
  }

  /** The data of a written TXT record, as the receiver gets it. */
  lemma TxtDataReads(mem: seq<byte>, index: nat, rec: Record, w: Out, later: seq<byte>)
    requires Memory(mem) && index <= PACKET && rec.Txt?
    requires w == Write(mem, index, rec) && w.ret > 0 && Same(w.mem, later, 0, w.index)
    ensures var at := OwnerEnd(mem, index, rec) + FIXED;
      at <= w.index <= |later|
      && later[at..w.index] == if rec.items == [] then [0] else Encode(rec.items)
  {
    hide Write, Append;
    DataKept(mem, index, rec, later);
    var t := BeforeData(mem, index, rec);
    TxtDataBytes(t.mem, t.index, rec.items, later);
  }

  lemma TxtDataBytes(mem: seq<byte>, index: nat, items: seq<TxtItem>, later: seq<byte>)
    requires Memory(mem) && 2 <= index < PACKET
    requires var d := TxtData(mem, index, items); d.ret > 0 && Kept(d.mem, later, d.index, index - 2)
    ensures var d := TxtData(mem, index, items);
      index <= d.index <= |later| && later[index..d.index] == if items == [] then [0] else Encode(items)
  {
    var d := TxtData(mem, index, items);
    if items != [] {
      EntriesWritten(mem, index, items);
      EntriesFrame(mem, index, items);
      assert AppendEntry(mem, index, items[0]).ret > 0;
      assert later[index..d.index] == d.mem[index..d.index];
    }
  }

  // ---------------------------------------------------------------------
  // Round trip.

  /** A key that is not empty and has no '=', in an entry of at most 255 bytes. */
  ghost predicate GoodItem(item: TxtItem) {
    item.key != [] && EQUALS !in item.key && |EntryText(item)| <= 255
  }

  ghost predicate GoodItems(items: seq<TxtItem>) {
    forall i :: 0 <= i < |items| ==> GoodItem(items[i])
  }

  /** An empty value comes back as an absent one. */
  function Normal(item: TxtItem): TxtItem {
    if item.value == Some([]) then item.(value := None) else item
  }

  function Normals(items: seq<TxtItem>): (r: seq<TxtItem>)
    ensures |r| == |items| && forall i :: 0 <= i < |r| ==> r[i] == Normal(items[i])
  {
    seq(|items|, i requires 0 <= i < |items| => Normal(items[i]))
  }

  /** Only the last entry may be a key alone. */
  predicate KeyAloneLast(items: seq<TxtItem>) {
    forall i :: 0 <= i < |items| - 1 ==> items[i].value.Some?
  }

  /** The counting pass is right for every list. */
  lemma {:induction false} CountsAll(data: seq<byte>, i: nat, items: seq<TxtItem>)
    requires GoodItems(items) && i <= |data| && data[i..] == Encode(items)
    ensures CountFrom(data, i) == Some(|items|)
    decreases |items|
  {
    hide EntryText, GoodItem, Encode;
    if items == [] {
      FillNothing(data, i);
    } else {
      var text := EntryText(items[0]);
      EntryAt(data, i, items);
      CountsAll(data, i + 1 + |text|, items[1..]);
    }
  }

  lemma SplitEntry(data: seq<byte>, i: nat, len: byte, text: seq<byte>, rest: seq<byte>)
    requires i <= |data| && data[i..] == [len] + (text + rest)
    ensures i + 1 + |text| <= |data| && data[i] == len
    ensures data[i + 1..i + 1 + |text|] == text && data[i + 1 + |text|..] == rest
  {
    var d := data[i..];
    assert |d| == 1 + |text| + |rest| && d[0] == len;
    assert d[1..] == text + rest == data[i + 1..];
    assert data[i + 1..i + 1 + |text|] == (text + rest)[..|text|];
    assert data[i + 1 + |text|..] == (text + rest)[|text|..];
  }

  lemma EntrySized(item: TxtItem)
    requires GoodItem(item)
    ensures 0 < |EntryText(item)| <= 255
  {
  }

  lemma EntryAt(data: seq<byte>, i: nat, items: seq<TxtItem>)
    requires GoodItems(items) && items != [] && i <= |data| && data[i..] == Encode(items)
    ensures var text := EntryText(items[0]);
      && 0 < |text| <= 255 && i + 1 + |text| <= |data|
      && data[i] == |text| && data[i + 1..i + 1 + |text|] == text
      && data[i + 1 + |text|..] == Encode(items[1..])
  {
    hide EntryText, GoodItem;
    var text := EntryText(items[0]);
    EntrySized(items[0]);
    SplitEntry(data, i, |text|, text, Encode(items[1..]));
  }

  /** An offset with no '=' before it and one on it is the key length. */
  lemma {:induction false} KeyLengthIs(part: seq<byte>, i: nat)
    requires i <= |part| && EQUALS !in part[..i] && (i < |part| ==> part[i] == EQUALS)
    ensures KeyLength(part) == i
  {
    if i > 0 {
      assert part[0] == part[..i][0];
      assert part[1..][..i - 1] == part[..i][1..];
      KeyLengthIs(part[1..], i - 1);
    }
  }

  /** The key of a written entry ends where it was put. */
  lemma KeyOfEntry(item: TxtItem)
    requires GoodItem(item)
    ensures KeyLength(EntryText(item)) == |item.key| && EntryText(item)[..|item.key|] == item.key
  {
    assert EntryText(item)[..|item.key|] == item.key;
    KeyLengthIs(EntryText(item), |item.key|);
  }

  ghost function Costs(items: seq<TxtItem>): nat {
    if items == [] then 0 else Cost(items[0]) + Costs(items[1..])
  }

  /** The filling pass cannot take more than one byte beyond the data. */
  lemma {:induction false} FillCosts(data: seq<byte>, i: nat)
    requires FillFrom(data, i).Some? && FillFrom(data, i).value != []
    ensures i + Costs(FillFrom(data, i).value) <= |data| + 1
    decreases |data| - i
  {
    hide Entry, Cost;
    var e := Entry(data, i);
    var items, rest := FillFrom(data, i).value, FillFrom(data, e.1).value;
    if e.0.Some? {
      assert items[1..] == rest;
    } else {
      assert items == rest;
    }
    if rest != [] {
      FillCosts(data, e.1);
    }
  }

  ghost function KeysAlone(items: seq<TxtItem>): nat {
    if items == [] then 0 else (if items[0].value.None? then 1 else 0) + KeysAlone(items[1..])
  }

  /** The encoding takes as much as the items cost, less one for every key alone. */
  lemma {:induction false} EncodeCosts(items: seq<TxtItem>)
    ensures |Encode(items)| + KeysAlone(items) == Costs(Normals(items))
  {
    if items != [] {
      assert Normals(items)[1..] == Normals(items[1..]);
      EncodeCosts(items[1..]);
    }
  }

  lemma FirstGood(items: seq<TxtItem>)
    requires GoodItems(items) && items != []
    ensures GoodItem(items[0])
  {
  }

  lemma EntryParts(item: TxtItem)
    ensures var text, m := EntryText(item), |item.key|;
      if item.value.Some? then |text| == m + 1 + |item.value.value| && text[m + 1..] == item.value.value else |text| == m
  {
  }

  /** The filling pass reads a written entry as it was meant. */
  lemma EntryReads(data: seq<byte>, i: nat, items: seq<TxtItem>)
    requires GoodItems(items) && items != [] && i <= |data| && data[i..] == Encode(items)
    ensures i < |data| && data[i] != 0 && i + 1 + data[i] <= |data|
    ensures Entry(data, i)
         == (Some(Normal(items[0])), i + 1 + |EntryText(items[0])| + if items[0].value.None? then 1 else 0)
  {
    hide Encode, EntryText, GoodItems;
    var item := items[0];
    EntryAt(data, i, items);
    assert GoodItem(item) by { FirstGood(items); }
    KeyOfEntry(item);
    EntryParts(item);
  }

  /** One step of the filling pass. */
  lemma FillStep(data: seq<byte>, i: nat, items: seq<TxtItem>)
    requires GoodItems(items) && items != [] && i <= |data| && data[i..] == Encode(items)
    ensures var next := i + 1 + |EntryText(items[0])| + if items[0].value.None? then 1 else 0;
      && (FillFrom(data, i).Some? <==> FillFrom(data, next).Some?)
      && (FillFrom(data, i).Some? ==> FillFrom(data, i).value == [Normal(items[0])] + FillFrom(data, next).value)
  {
    hide Entry, Encode, EntryText, Normal, GoodItems;
    EntryReads(data, i, items);
  }

  /** A key ends at the first '='. */
  lemma {:induction false} KeyEndsBefore(part: seq<byte>, j: nat)
    requires j < |part| && part[j] == EQUALS
    ensures KeyLength(part) <= j
  {
    if j > 0 {
      KeyEndsBefore(part[1..], j - 1);
    }
  }

  /** A pass that starts one byte into the entry k=v, and takes up all the data, finds a
      shorter key first: the '=' comes one byte too early. */
  lemma ShiftedKey(data: seq<byte>, s: nat, item: TxtItem, found: seq<TxtItem>)
    requires item.key != [] && item.value.Some? && s + 1 + |EntryText(item)| <= |data|
    requires data[s + 1..s + 1 + |EntryText(item)|] == EntryText(item)
    requires FillFrom(data, s + 1) == Some(found) && found != []
    requires s + 1 + Costs(found) > |data|
    ensures |found[0].key| < |item.key|
  {
    hide Cost;
    var text, m, i := EntryText(item), |item.key|, s + 1;
    assert data[i + m] == EQUALS by {
      assert data[i..i + |text|][m] == text[m] == EQUALS;
    }
    var e := Entry(data, i);
    if e.0.None? {
      assert found == FillFrom(data, e.1).value;
      FillCosts(data, e.1);
    } else {
      var part := data[i + 1..i + 1 + data[i]];
      if m <= |part| {
        assert part[m - 1] == data[i + m];
        KeyEndsBefore(part, m - 1);
      }
      assert found[0] == e.0.value;
    }
  }

  /** A pass that starts one byte into an entry does not give the entries back. */
  lemma ShiftedFill(data: seq<byte>, s: nat, items: seq<TxtItem>)
    requires GoodItems(items) && items != [] && s <= |data| && data[s..] == Encode(items)
    ensures FillFrom(data, s + 1) != Some(Normals(items))
  {
    hide FillFrom, Encode, Entry;
    EntryAt(data, s, items);
    EncodeCosts(items);
    assert GoodItem(items[0]);
    if FillFrom(data, s + 1) == Some(Normals(items)) {
      FillCosts(data, s + 1);
      assert KeysAlone(items) == 0 && items[0].value.Some?;
      ShiftedKey(data, s, items[0], Normals(items));
    }
  }

  /** The filling pass gives the entries back exactly when no key stands alone before the end. */
  lemma {:induction false} FillExact(data: seq<byte>, i: nat, items: seq<TxtItem>)
    requires GoodItems(items) && i <= |data| && data[i..] == Encode(items)
    ensures FillFrom(data, i) == Some(Normals(items)) <==> KeyAloneLast(items)
    decreases |items|
  {
    hide EntryText, Encode, Normal, GoodItem, Entry, FillFrom, Normals;
    if items == [] {
      FillNothing(data, i);
    } else {
      var s := i + 1 + |EntryText(items[0])|;
      EntryAt(data, i, items);
      FillStep(data, i, items);
      NormalsCons(items);
      if items[0].value.Some? {
        FillExact(data, s, items[1..]);
        KeyAloneTail(items);
        ConsExact(Normal(items[0]), FillFrom(data, i), FillFrom(data, s), Normals(items[1..]));
      } else if items[1..] != [] {
        ShiftedFill(data, s, items[1..]);
        ConsExact(Normal(items[0]), FillFrom(data, i), FillFrom(data, s + 1), Normals(items[1..]));
      } else {
        assert FillFrom(data, s + 1) == Some([]) by { LastEntry(items, data, s); }
      }
    }
  }

  lemma FillNothing(data: seq<byte>, i: nat)
    requires i <= |data| && data[i..] == Encode([])
    ensures i == |data| && FillFrom(data, i) == Some([]) && Normals([]) == []
  {
  }

  lemma LastEntry(items: seq<TxtItem>, data: seq<byte>, i: nat)
    requires items != [] && items[1..] == [] && i <= |data| && data[i..] == Encode(items[1..])
    ensures FillFrom(data, i + 1) == Some([])
  {
    FillEnds(data, i + 1);
  }

  lemma FillEnds(data: seq<byte>, i: nat)
    requires |data| <= i
    ensures FillFrom(data, i) == Some([])
  {
  }

  lemma NormalsCons(items: seq<TxtItem>)
    requires items != []
    ensures Normals(items) == [Normal(items[0])] + Normals(items[1..])
    ensures items[1..] == [] ==> Normals(items[1..]) == []
  {
  }

  lemma ConsExact(x: TxtItem, all: Option<seq<TxtItem>>, rest: Option<seq<TxtItem>>, want: seq<TxtItem>)
    requires all.Some? <==> rest.Some?
    requires all.Some? ==> all.value == [x] + rest.value
    ensures all == Some([x] + want) <==> rest == Some(want)
  {
    if all.Some? {
      assert ([x] + rest.value)[1..] == rest.value && ([x] + want)[1..] == want;
    }
  }

  lemma KeyAloneTail(items: seq<TxtItem>)
    requires items != [] && items[0].value.Some?
    ensures KeyAloneLast(items) <==> KeyAloneLast(items[1..])
  {
    if KeyAloneLast(items[1..]) {
      forall i | 0 <= i < |items| - 1 ensures items[i].value.Some? {
        if i > 0 {
          assert items[1..][i - 1] == items[i];
        }
      }
    }
  }

  /** The counting pass always counts the entries, and the parser returns the same keys
      and values in order, empty values as absent ones, if and only if no entry before the
      last is a key alone. */
  lemma TxtRoundTrip(items: seq<TxtItem>)
    requires items != [] && GoodItems(items)
    ensures CountFrom(Encode(items), 0) == Some(|items|)
    ensures ResultCreate(Encode(items)) == Normals(items) <==> KeyAloneLast(items)
  {
    var data := Encode(items);
    assert data[0..] == data;
    CountsAll(data, 0, items);
    FillExact(data, 0, items);
    EntryAt(data, 0, items);
  }

  /** An entry that begins with '=' is counted and not filled in; the entries after it are. */
  lemma NamelessIsSkipped(data: seq<byte>, i: nat)
    requires i + 1 < |data| && data[i] != 0 && i + 1 + data[i] <= |data| && data[i + 1] == 61
    ensures FillFrom(data, i) == FillFrom(data, i + 1 + data[i])
    ensures CountFrom(data, i).Some? <==> CountFrom(data, i + 1 + data[i]).Some?
    ensures CountFrom(data, i).Some? ==> CountFrom(data, i).value == 1 + CountFrom(data, i + 1 + data[i]).value
  {
    var part := data[i + 1..i + 1 + data[i]];
    assert part[0] == EQUALS && KeyLength(part) == 0;
    assert Entry(data, i) == (None, i + 1 + data[i]);
    var rest := FillFrom(data, i + 1 + data[i]);
    assert rest.Some? ==> [] + rest.value == rest.value;
  }

  /** A key of one byte alone. */
  lemma KeyOnly(data: seq<byte>, i: nat, key: byte)
    requires i + 1 < |data| && data[i] == 1 && data[i + 1] == key != EQUALS
    ensures Entry(data, i) == (Some(TxtItem([key], None)), i + 3)
  {
    var part := data[i + 1..i + 1 + data[i]];
    assert |part| == 1 && part[0] == key;
    assert part[..1] == [key];
    KeyLengthIs(part, 1);
    assert Entry(data, i).0 == Some(TxtItem(part[..KeyLength(part)], None));
  }

  /** A key of one byte with an empty value. */
  lemma KeyAndEquals(data: seq<byte>, i: nat)
    requires i + 2 < |data| && data[i] == 2 && data[i + 1] != EQUALS && data[i + 2] == EQUALS
    ensures Entry(data, i) == (Some(TxtItem([data[i + 1]], None)), i + 3)
  {
    var part := data[i + 1..i + 1 + data[i]];
    assert |part| == 2 && part[0] == data[i + 1] && part[1] == EQUALS;
    assert part[..1] == [data[i + 1]];
    KeyLengthIs(part, 1);
    assert Entry(data, i).0 == Some(TxtItem(part[..KeyLength(part)], None));
  }

  /** A key alone before another entry hides that entry: a list of two comes back as one item
      or as an error. */
  lemma KeyAloneHidesTheNext()
    ensures var items := [TxtItem([97], None), TxtItem([98], Some([99]))];
      && GoodItems(items) && Encode(items) == [1, 97, 3, 98, 61, 99]
      && CountFrom(Encode(items), 0) == Some(2) && ResultCreate(Encode(items)) == []
  {
    hide Entry, KeyLength;
    var items := [TxtItem([97], None), TxtItem([98], Some([99]))];
    EncodedPair(items);
    TxtRoundTrip(items) by { assert GoodItems(items); }
    var data := [1, 97, 3, 98, 61, 99];
    KeyOnly(data, 0, 97);
    assert FillFrom(data, 3).None?;
  }

  lemma EncodedPair(items: seq<TxtItem>)
    requires items == [TxtItem([97], None), TxtItem([98], Some([99]))]
    ensures EntryText(items[0]) == [97] && EntryText(items[1]) == [98, 61, 99]
    ensures Encode(items) == [1, 97, 3, 98, 61, 99]
  {
    assert items[1..] == [TxtItem([98], Some([99]))] && items[1..][1..] == [];
    assert EntryText(items[0]) == [97] && EntryText(items[1]) == [98, 61, 99];
    assert Encode([]) == [] && Encode(items[1..]) == [3] + ([98, 61, 99] + []) == [3, 98, 61, 99];
    assert Encode(items) == [1] + ([97] + [3, 98, 61, 99]);
  }

  /** An empty TXT record, one zero byte, comes back as no entries. */
  lemma EmptyRecordReads(mem: seq<byte>, index: nat, rec: Record, w: Out, later: seq<byte>)
    requires Memory(mem) && index <= PACKET && rec.Txt? && rec.items == []
    requires w == Write(mem, index, rec) && w.ret > 0 && Same(w.mem, later, 0, w.index)
    ensures var at := OwnerEnd(mem, index, rec) + FIXED;
      at <= w.index <= |later| && ResultCreate(later[at..w.index]) == []
  {
    hide Write, OwnerEnd;
    TxtDataReads(mem, index, rec, w, later);
  }

  // ---------------------------------------------------------------------
  // The arrays that the filling pass stores to have room for the entries that were counted.

  /** The items that the filling pass stores before it ends or finds an error. */
  function StoredFrom(data: seq<byte>, i: nat): nat
    decreases |data| - i
  {
    if i >= |data| || data[i] == 0 || i + 1 + data[i] > |data| then 0
    else
      var e := Entry(data, i);
      (if e.0.Some? then 1 else 0) + StoredFrom(data, e.1)
  }

  lemma {:induction false} StoredIsFill(data: seq<byte>, i: nat)
    ensures FillFrom(data, i).Some? ==> StoredFrom(data, i) == |FillFrom(data, i).value|
    decreases |data| - i
  {
    hide Entry;
    if i < |data| && data[i] != 0 && i + 1 + data[i] <= |data| {
      StoredIsFill(data, Entry(data, i).1);
    }
  }

  /** The passes are in step: every counted entry has an '=', or the data end with it. */
  predicate InStep(data: seq<byte>, i: nat)
    decreases |data| - i
  {
    i >= |data| || data[i] == 0 || i + 1 + data[i] > |data|
    || ((EQUALS in data[i + 1..i + 1 + data[i]] || i + 1 + data[i] == |data|) && InStep(data, i + 1 + data[i]))
  }

  lemma {:induction false} EqualsEndsKey(part: seq<byte>)
    requires EQUALS in part
    ensures KeyLength(part) < |part|
  {
    if part[0] != EQUALS {
      EqualsEndsKey(part[1..]);
    }
  }

  /** Then no more is stored than was counted. */
  lemma {:induction false} InStepFits(data: seq<byte>, i: nat)
    requires InStep(data, i) && CountFrom(data, i).Some?
    ensures FillFrom(data, i).Some? && |FillFrom(data, i).value| <= CountFrom(data, i).value
    decreases |data| - i
  {
    if i < |data| && data[i] != 0 {
      var part := data[i + 1..i + 1 + data[i]];
      if EQUALS in part {
        EqualsEndsKey(part);
        assert Entry(data, i).1 == i + 1 + data[i];
      } else {
        FillEnds(data, Entry(data, i).1);
      }
      InStepFits(data, i + 1 + data[i]);
    }
  }

  /** Out of step, one more is stored: two entries are counted here, and three filled in. */
  lemma StoresOneTooMany()
    ensures var data := [1, 97, 6, 2, 98, 61, 2, 99, 61];
      CountFrom(data, 0) == Some(2) && StoredFrom(data, 0) == 3
  {
    var data := [1, 97, 6, 2, 98, 61, 2, 99, 61];
    hide Entry;
    assert CountFrom(data, 9) == Some(0) && CountFrom(data, 2) == Some(1);
    KeyOnly(data, 0, 97);
    KeyAndEquals(data, 3);
    KeyAndEquals(data, 6);
    assert StoredFrom(data, 9) == 0 && StoredFrom(data, 6) == 1 && StoredFrom(data, 3) == 2;
  }

  // ---------------------------------------------------------------------
  // The parser as it runs.

  /** `_mdns_txt_items_count_get`; -1 is the error. */
  method CountItems(data: seq<byte>) returns (n: int)
    ensures |data| == 1 ==> n == 0
    ensures |data| != 1 ==> n == (match CountFrom(data, 0) case None => -1 case Some(k) => k)
  {
    if |data| == 1 {
      return 0;
    }
    n := 0;
    var i: nat := 0;
    while i < |data|
      invariant i <= |data| && 0 <= n
      invariant CountFrom(data, 0).Some? <==> CountFrom(data, i).Some?
      invariant CountFrom(data, 0).Some? ==> CountFrom(data, 0).value == n + CountFrom(data, i).value
    {
      var partLen := data[i];
      i := i + 1;
      if partLen == 0 {
        break;
      }
      if i + partLen > |data| {
        return -1;
      }
      i := i + partLen;
      n := n + 1;
    }
  }

  /** `_mdns_txt_item_name_get_len`; an entry that begins with '=' has no key. */
  method ItemKeyLength(part: seq<byte>) returns (n: int)
    requires part != []
    ensures n == if part[0] == EQUALS then -1 else KeyLength(part)
  {
    if part[0] == EQUALS {
      return -1;
    }
    var i := 0;
    while i < |part|
      invariant i <= |part| && EQUALS !in part[..i]
    {
      if part[i] == EQUALS {
        KeyLengthIs(part, i);
        return i;
      }
      assert part[..i + 1] == part[..i] + [part[i]];
      i := i + 1;
    }
    KeyLengthIs(part, |part|);
    return |part|;
  }

  /** The body of the filling loop. */
  method ReadEntry(data: seq<byte>, i: nat) returns (item: Option<TxtItem>, next: nat)
    requires i < |data| && data[i] != 0 && i + 1 + data[i] <= |data|
    ensures (item, next) == Entry(data, i)
  {
    var part := data[i + 1..i + 1 + data[i]];
    var n := ItemKeyLength(part);
    if n < 0 {
      return None, i + 1 + |part|;
    }
    next := i + 1 + n + 1;
    if |part| > n + 1 {
      item := Some(TxtItem(part[..n], Some(part[n + 1..])));
      next := next + (|part| - n - 1);
    } else {
      item := Some(TxtItem(part[..n], None));
    }
  }

  /** The counting pass has gone through and found some entries. */
  predicate Counted(data: seq<byte>) {
    |data| != 1 && CountFrom(data, 0).Some? && CountFrom(data, 0).value > 0
  }

  /** `_mdns_result_txt_create`. The result arrays have room for the counted entries; when
      the filling pass would store beyond them, this stops. */
  method CreateResult(data: seq<byte>) returns (items: seq<TxtItem>, inside: bool)
    ensures inside <==> (Counted(data) ==> StoredFrom(data, 0) <= CountFrom(data, 0).value)
    ensures inside ==> items == ResultCreate(data)
    ensures !inside ==> |items| == CountFrom(data, 0).value
  {
    hide Entry, CountFrom;
    items, inside := [], true;
    var count := CountItems(data);
    if count <= 0 {
      return;
    }
    var i: nat := 0;
    ghost var all := FillFrom(data, 0);
    while i < |data|
      invariant all.Some? <==> FillFrom(data, i).Some?
      invariant all.Some? ==> all.value == items + FillFrom(data, i).value
      invariant StoredFrom(data, 0) == |items| + StoredFrom(data, i) && |items| <= count
      decreases |data| - i
    {
      if data[i] == 0 {
        break;
      }
      if i + 1 + data[i] > |data| {
        return [], true;
      }
      var item, next := ReadEntry(data, i);
      if item.Some? {
        if |items| == count {
          return items, false;
        }
        items := items + [item.value];
      }
      i := next;
    }
  }
}
