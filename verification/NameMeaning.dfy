/** What the reader makes of a name, told by the labels that the name spells: which of them
    become the host, which the other parts, and which are dropped. */
module NameMeaning {
  import opened Octets
  import opened NameReader
  import opened NameWriter

  /** A label that is not joined to the host in front of it: it begins with '_', or it is
      "local", "arpa", "ip6" or "in-addr", in any case. */
  predicate StandsAlone(word: seq<byte>) {
    || (word != [] && word[0] == 95)
    || EqNoCase(CStr(word), [108, 111, 99, 97, 108])
    || EqNoCase(CStr(word), [97, 114, 112, 97])
    || EqNoCase(CStr(word), [105, 112, 54])
    || EqNoCase(CStr(word), [105, 110, 45, 97, 100, 100, 114])
  }

  /** The subtype marker "_sub", in any case. */
  predicate IsMarker(word: seq<byte>) {
    EqNoCase(CStr(word), [95, 115, 117, 98])
  }

  /** The labels with dots between them. */
  function Joined(labels: seq<seq<byte>>): seq<byte>
    decreases |labels|
  {
    if labels == [] then []
    else if |labels| == 1 then CStr(labels[0])
    else Joined(labels[..|labels| - 1]) + [46] + CStr(labels[|labels| - 1])
  }

  /** As much as fits a field of 65 bytes with its NUL. */
  function Cut(s: seq<byte>): seq<byte> {
    if |s| <= 64 then s else s[..64]
  }

  /** The labels without the markers. */
  function Unmarked(labels: seq<seq<byte>>): seq<seq<byte>>
    decreases |labels|
  {
    if labels == [] then []
    else
      var front := Unmarked(labels[..|labels| - 1]);
      if IsMarker(labels[|labels| - 1]) then front else front + [labels[|labels| - 1]]
  }

  predicate EndsAt(labels: seq<seq<byte>>, i: nat) {
    i >= |labels| || StandsAlone(labels[i])
  }

  /** The first h labels are the host: the first one, and all behind it up to one that stands alone. */
  ghost predicate HostEnds(labels: seq<seq<byte>>, h: nat) {
    h <= |labels| && (labels != [] ==> h > 0) && EndsAt(labels, h) && forall i :: 1 <= i < h ==> !EndsAt(labels, i)
  }

  /** Part i of the name: the host, joined and cut, or the label that far behind it. */
  function Part(labels: seq<seq<byte>>, h: nat, i: nat): seq<byte>
    requires h <= |labels|
  {
    if i == 0 then Cut(Joined(labels[..h]))
    else if h + i - 1 < |labels| then CStr(labels[h + i - 1])
    else []
  }

  /** The name has the host and the next three labels as its parts. */
  ghost predicate Means(n: Name, labels: seq<seq<byte>>, h: nat)
    requires |n.fields| == FIELDS && h <= |labels|
  {
    && n.parts == (if labels == [] then 0 else if |labels| - h > 3 then 4 else 1 + |labels| - h)
    && forall i :: 0 <= i < 4 ==> n.fields[i] == Part(labels, h, i)
  }

  lemma OneHostEnd(labels: seq<seq<byte>>, h: nat, k: nat)
    requires HostEnds(labels, h) && HostEnds(labels, k)
    ensures h == k
  {
    hide EndsAt;
  }

  lemma {:induction false} SomeHostEnd(labels: seq<seq<byte>>) returns (h: nat)
    ensures HostEnds(labels, h)
  {
    hide StandsAlone;
    h := if labels == [] then 0 else 1;
    while h < |labels| && !StandsAlone(labels[h])
      invariant h <= |labels| && (labels != [] ==> h > 0)
      invariant forall i :: 1 <= i < h ==> !StandsAlone(labels[i])
    {
      h := h + 1;
    }
  }

  // ---------------------------------------------------------------------
  // One more label.

  /** What is known of the name after some tokens. */
  ghost predicate Built(n: Name, labels: seq<seq<byte>>, h: nat) {
    && WellFormed(n) && HostEnds(labels, h) && Means(n, labels, h)
    && (n.invalid ==> n.parts == FIELDS) && (|labels| - h > 3 ==> n.invalid)
  }

  lemma JoinOne(labels: seq<seq<byte>>, word: seq<byte>)
    requires labels != []
    ensures Joined(labels + [word]) == Joined(labels) + [46] + CStr(word)
  {
    assert (labels + [word])[..|labels|] == labels;
  }

  lemma CutTwice(j: seq<byte>, text: seq<byte>)
    ensures Concat(Concat(Cut(j), [DOT]), text) == Cut(j + [46] + text)
  {
  }

  lemma StandsAloneIs(word: seq<byte>)
    requires word != []
    ensures StandsAlone(word) <==> word[0] == UNDERSCORE || Reserved(CStr(word))
  {
  }

  lemma MarkerStandsAlone(word: seq<byte>)
    requires word != [] && IsMarker(word)
    ensures word[0] == UNDERSCORE
  {
    var text := CStr(word);
    assert Lower(text[0]) == Lower(SUB[0]);
  }

  lemma HostGoesOn(n: Name, labels: seq<seq<byte>>, h: nat, word: seq<byte>)
    requires Built(n, labels, h) && 0 < |word| <= 63 && n.parts == 1 && !StandsAlone(word)
    ensures Built(Store(Enter(n), word), labels + [word], h + 1)
  {
    hide StandsAlone, Joined, Cut, CStr, Reserved, NulFree, EqNoCase, Concat;
    StandsAloneIs(word);
    var m := Store(Enter(n), word);
    assert h == |labels| && labels[..h] == labels && (labels + [word])[..h + 1] == labels + [word];
    JoinOne(labels, word);
    CutTwice(Joined(labels), CStr(word));
    assert n.fields[0] == Part(labels, h, 0);
    assert m.fields == n.fields[0 := Cut(Joined(labels + [word]))];
    forall i | 0 <= i < 4 ensures m.fields[i] == Part(labels + [word], h + 1, i) {
      assert n.fields[i] == Part(labels, h, i);
    }
    HostStillEnds(labels, h, word);
    hide Store;
  }

  lemma HostStillEnds(labels: seq<seq<byte>>, h: nat, word: seq<byte>)
    requires HostEnds(labels, h) && labels != []
    ensures h == |labels| && !StandsAlone(word) ==> HostEnds(labels + [word], h + 1)
    ensures h < |labels| || StandsAlone(word) ==> HostEnds(labels + [word], h)
  {
    hide StandsAlone;
    var all := labels + [word];
    forall i | 0 <= i < |labels| ensures EndsAt(all, i) == EndsAt(labels, i) {
      assert all[i] == labels[i];
    }
  }

  lemma FirstLabel(n: Name, word: seq<byte>)
    requires Built(n, [], 0) && 0 < |word| <= 63 && !IsMarker(word)
    ensures Built(Store(Enter(n), word), [word], 1)
  {
    hide StandsAlone, Reserved, CStr, NulFree, Joined;
    JoinedFew(word);
    var m := Store(Enter(n), word);
    assert [word][..1] == [word];
    forall i | 0 <= i < 4 ensures m.fields[i] == Part([word], 1, i) {
      assert n.fields[i] == Part([], 0, i);
    }
  }

  lemma JoinedFew(word: seq<byte>)
    ensures Joined([word]) == CStr(word) && Joined([]) == []
  {
  }

  lemma NextPart(n: Name, labels: seq<seq<byte>>, h: nat, word: seq<byte>)
    requires Built(n, labels, h) && 0 < |word| <= 63 && n.parts >= 1 && !IsMarker(word)
    requires n.parts == 1 ==> StandsAlone(word)
    ensures Built(Store(Enter(n), word), labels + [word], h)
  {
    hide StandsAlone, Joined, Cut, CStr, Reserved, NulFree, EqNoCase, Concat;
    StandsAloneIs(word);
    NoMarker(word);
    var all, m := labels + [word], Store(Enter(n), word);
    assert all[..h] == labels[..h];
    HostStillEnds(labels, h, word);
    forall i | 0 <= i < 4 ensures m.fields[i] == Part(all, h, i) {
      assert n.fields[i] == Part(labels, h, i);
    }
  }

  lemma NoMarker(word: seq<byte>)
    ensures IsMarker(word) <==> EqNoCase(CStr(word), SUB)
  {
  }

  lemma MarkerSkipped(n: Name, labels: seq<seq<byte>>, h: nat, word: seq<byte>)
    requires Built(n, labels, h) && 0 < |word| <= 63 && IsMarker(word)
    ensures Built(Store(Enter(n), word), labels, h) && Store(Enter(n), word).sub
  {
    MarkerStandsAlone(word);
  }

  lemma {:induction false} LabelsLast(ts: seq<Token>)
    requires ts != []
    ensures var front, t := ts[..|ts| - 1], ts[|ts| - 1];
      Labels(ts) == if t.Label? then Labels(front) + [t.text] else Labels(front)
  {
    if |ts| > 1 {
      LabelsLast(ts[1..]);
      assert ts[1..][..|ts| - 2] == ts[..|ts| - 1][1..];
    } else {
      assert ts[1..] == [] && ts[..0] == [];
    }
  }

  lemma UnmarkedLast(labels: seq<seq<byte>>, word: seq<byte>)
    ensures Unmarked(labels + [word]) == if IsMarker(word) then Unmarked(labels) else Unmarked(labels) + [word]
    ensures |Unmarked(labels)| <= |labels|
  {
    assert (labels + [word])[..|labels|] == labels;
    UnmarkedShorter(labels);
  }

  lemma {:induction false} UnmarkedShorter(labels: seq<seq<byte>>)
    ensures |Unmarked(labels)| <= |labels|
    decreases |labels|
  {
    if labels != [] {
      UnmarkedShorter(labels[..|labels| - 1]);
    }
  }

  lemma StoreMeans(n: Name, labels: seq<seq<byte>>, h: nat, word: seq<byte>) returns (k: nat)
    requires Built(n, labels, h) && 0 < |word| <= 63
    ensures Built(Store(Enter(n), word), if IsMarker(word) then labels else labels + [word], k)
    ensures Store(Enter(n), word).sub <==> n.sub || IsMarker(word)
  {
    hide StandsAlone, Means, EqNoCase, Reserved;
    k := h;
    SubRaised(n, word);
    if IsMarker(word) {
      MarkerSkipped(n, labels, h, word);
    } else if labels == [] {
      assert n.parts == 0 by { NothingMeans(n, h); }
      FirstLabel(n, word);
      assert [] + [word] == [word];
      k := 1;
    } else {
      assert n.parts >= 1 by { SomethingMeans(n, labels, h); }
      if n.parts == 1 && !StandsAlone(word) {
        HostGoesOn(n, labels, h, word);
        k := h + 1;
      } else {
        NextPart(n, labels, h, word);
      }
    }
  }

  lemma NothingMeans(n: Name, h: nat)
    requires Built(n, [], h)
    ensures n.parts == 0 && h == 0
  {
  }

  lemma SomethingMeans(n: Name, labels: seq<seq<byte>>, h: nat)
    requires Built(n, labels, h) && labels != []
    ensures n.parts >= 1
  {
  }

  lemma SubRaised(n: Name, word: seq<byte>)
    requires WellFormed(n) && 0 < |word| <= 63
    ensures Store(Enter(n), word).sub <==> n.sub || IsMarker(word)
  {
    if IsMarker(word) {
      MarkerStandsAlone(word);
    }
  }

  lemma {:induction false} FoldMeans(ts: seq<Token>) returns (h: nat)
    requires GoodTokens(ts)
    ensures var n := Fold(ts, EMPTY_NAME);
      && Built(n, Unmarked(Labels(ts)), h)
      && (n.sub <==> |Unmarked(Labels(ts))| < |Labels(ts)|)
    decreases |ts|
  {
    hide Built, Labels, Unmarked, Fold, IsMarker, NulFree;
    if ts == [] {
      EmptyMeans();
      h := 0;
    } else {
      var front, t := ts[..|ts| - 1], ts[|ts| - 1];
      h := FoldMeans(front);
      EmptyIsWellFormed();
      FoldLast(ts, EMPTY_NAME);
      h := TokenMeans(front, t, Fold(front, EMPTY_NAME), h);
      assert front + [t] == ts;
    }
  }

  lemma TokenMeans(front: seq<Token>, t: Token, n: Name, h: nat) returns (k: nat)
    requires Built(n, Unmarked(Labels(front)), h) && (t.Label? ==> 0 < |t.text| <= 63)
    requires n.sub <==> |Unmarked(Labels(front))| < |Labels(front)|
    ensures WellFormed(n) && Built(Step(t, n), Unmarked(Labels(front + [t])), k)
    ensures Step(t, n).sub <==> |Unmarked(Labels(front + [t]))| < |Labels(front + [t])|
  {
    hide Labels, Unmarked, IsMarker, NulFree, Store, Means, HostEnds;
    assert (front + [t])[..|front|] == front;
    LabelsLast(front + [t]);
    k := h;
    if t.Label? {
      UnmarkedLast(Labels(front), t.text);
      k := StoreMeans(n, Unmarked(Labels(front)), h, t.text);
    } else {
      HopMeans(n, Unmarked(Labels(front)), h);
    }
  }

  lemma EmptyMeans()
    ensures Built(EMPTY_NAME, [], 0) && Unmarked([]) == [] && Labels([]) == [] && Fold([], EMPTY_NAME) == EMPTY_NAME
  {
    JoinedFew([]);
    var none: seq<seq<byte>> := [];
    assert none[..0] == none;
  }

  lemma HopMeans(n: Name, labels: seq<seq<byte>>, h: nat)
    requires Built(n, labels, h)
    ensures Built(Enter(n), labels, h)
  {
  }

  // ---------------------------------------------------------------------
  // The reader and the parser.

  /** The labels of the name at start, without markers. */
  ghost function Spelt(mem: seq<byte>, size: nat, start: nat): seq<seq<byte>>
    requires size < |mem| && Decode(mem, size, start, start).Some?
  {
    Unmarked(Labels(Decode(mem, size, start, start).value.tokens))
  }

  /** Whatever name can be decoded, compressed or not: the labels up to one that stands alone
      are the host, with dots between them, cut to 64 bytes; the next three are the other
      parts; there is no further part, and with more labels than that the name is invalid.
      The sub flag tells that there was a marker, which counts for nothing else. */
  lemma ReadMeans(mem: seq<byte>, size: nat, start: nat, h: nat)
    requires size < |mem| && Decode(mem, size, start, start).Some? && HostEnds(Spelt(mem, size, start), h)
    ensures var r, d := Read(mem, size, start, start, EMPTY_NAME), Decode(mem, size, start, start).value;
      && r.0 == Some(d.next) && Means(r.1, Spelt(mem, size, start), h)
      && (r.1.sub <==> exists i :: 0 <= i < |Labels(d.tokens)| && IsMarker(Labels(d.tokens)[i]))
      && (r.1.invalid ==> r.1.parts == FIELDS) && (|Spelt(mem, size, start)| - h > 3 ==> r.1.invalid)
  {
    hide Read, Decode, Fold, Means, HostEnds, StandsAlone, IsMarker;
    ReadIsFold(mem, size, start, start, EMPTY_NAME);
    var ts := Decode(mem, size, start, start).value.tokens;
    var k := FoldMeans(ts);
    OneHostEnd(Spelt(mem, size, start), h, k);
    SomeMarker(Labels(ts));
  }

  lemma {:induction false} SomeMarker(labels: seq<seq<byte>>)
    ensures |Unmarked(labels)| < |labels| <==> exists i :: 0 <= i < |labels| && IsMarker(labels[i])
    decreases |labels|
  {
    hide IsMarker;
    if labels != [] {
      var front := labels[..|labels| - 1];
      SomeMarker(front);
      UnmarkedShorter(front);
      assert forall i :: 0 <= i < |front| ==> front[i] == labels[i];
    }
  }

  /** A dotted host name: labels of which none but the first begins with '_' or is reserved,
      followed by one that stands alone. */
  lemma DottedHostReads(mem: seq<byte>, size: nat, start: nat, hosts: seq<seq<byte>>, last: seq<byte>)
    requires size < |mem| && Decode(mem, size, start, start).Some? && hosts != []
    requires Spelt(mem, size, start) == hosts + [last] && StandsAlone(last)
    requires forall i :: 1 <= i < |hosts| ==> !StandsAlone(hosts[i])
    ensures var n := Read(mem, size, start, start, EMPTY_NAME).1;
      n.parts == 2 && n.fields == [Cut(Joined(hosts)), CStr(last), [], []] && !n.invalid
  {
    hide Read, Decode, StandsAlone, Joined, Cut, CStr, Spelt;
    ReadMeans(mem, size, start, |hosts|);
    var all, n := hosts + [last], Read(mem, size, start, start, EMPTY_NAME).1;
    assert all[..|hosts|] == hosts;
    assert n.fields[0] == Part(all, |hosts|, 0) && n.fields[1] == Part(all, |hosts|, 1);
    assert n.fields[2] == Part(all, |hosts|, 2) && n.fields[3] == Part(all, |hosts|, 3);
  }

  /** "local" or "arpa", in any case. */
  predicate IsDomain(text: seq<byte>) {
    EqNoCase(text, [108, 111, 99, 97, 108]) || EqNoCase(text, [97, 114, 112, 97])
  }

  /** The parser puts host and domain, or service, proto and domain, or all four in their
      places, and accepts the name if its domain is "local" or "arpa" and nothing follows. */
  lemma ParseMeans(mem: seq<byte>, size: nat, start: nat, h: nat)
    requires size < |mem| && Decode(mem, size, start, start).Some? && HostEnds(Spelt(mem, size, start), h)
    ensures var r, d := Parse(mem, size, start), Decode(mem, size, start, start).value;
      var labels := Spelt(mem, size, start);
      var host, rest := Cut(Joined(labels[..h])), labels[h..];
      && r.0 == Some(d.next)
      && (labels == [] ==> r.1.fields == [[], [], [], []] && !r.1.invalid)
      && (labels != [] && |rest| == 0 ==> r.1.invalid)
      && (|rest| == 1 ==> r.1.fields == [host, [], [], CStr(rest[0])] && (r.1.invalid <==> !IsDomain(CStr(rest[0]))))
      && (|rest| == 2 ==>
            r.1.fields == [[], host, CStr(rest[0]), CStr(rest[1])] && (r.1.invalid <==> !IsDomain(CStr(rest[1]))))
      && (|rest| == 3 ==>
            && r.1.fields == [host, CStr(rest[0]), CStr(rest[1]), CStr(rest[2])]
            && (!r.1.invalid <==> IsDomain(CStr(rest[2])) && !Read(mem, size, start, start, EMPTY_NAME).1.invalid))
      && (|rest| > 3 ==> r.1.invalid)
  {
    hide Read, Decode, StandsAlone, Joined, Cut, Spelt, EqNoCase, CStr, Means, Place, Part;
    ReadMeans(mem, size, start, h);
    var labels, n := Spelt(mem, size, start), Read(mem, size, start, start, EMPTY_NAME).1;
    PlacedMeans(n, labels, h);
    EmptyIsNoDomain();
    ReadIsFold(mem, size, start, start, EMPTY_NAME);
  }

  /** Where the parser puts the parts. */
  lemma PlacedMeans(n: Name, labels: seq<seq<byte>>, h: nat)
    requires |n.fields| == FIELDS && h <= |labels| && Means(n, labels, h) && (labels != [] ==> h > 0)
    ensures var host, rest, r := Cut(Joined(labels[..h])), labels[h..], Place(n).fields;
      && (labels == [] ==> n.fields == [[], [], [], []] && n.parts == 0)
      && (labels != [] && |rest| == 0 ==> n.parts == 1 && r[3] == [])
      && (|rest| == 1 ==> n.parts == 2 && r == [host, [], [], CStr(rest[0])])
      && (|rest| == 2 ==> n.parts == 3 && r == [[], host, CStr(rest[0]), CStr(rest[1])])
      && (|rest| == 3 ==> n.parts == 4 && r == [host, CStr(rest[0]), CStr(rest[1]), CStr(rest[2])])
      && (|rest| > 3 ==> n.parts == 4)
    ensures Place(n).invalid == n.invalid && (n.parts == 4 ==> Place(n) == n)
  {
    hide Joined, Cut, CStr;
    assert n.fields[0] == Part(labels, h, 0) && n.fields[1] == Part(labels, h, 1);
    assert n.fields[2] == Part(labels, h, 2) && n.fields[3] == Part(labels, h, 3);
    if labels == [] {
      NothingJoined();
      assert labels[..h] == [];
    }
  }

  lemma NothingJoined()
    ensures Cut(Joined([])) == []
  {
  }

  lemma EmptyIsNoDomain()
    ensures !IsDomain([])
  {
  }

  // ---------------------------------------------------------------------
  // What the writer takes for an earlier name.

  /** Without case: byte for byte the same, or the same letter, capital and small. */
  lemma NoCaseMeans(a: seq<byte>, b: seq<byte>)
    ensures EqNoCase(a, b) <==> |a| == |b| && forall i :: 0 <= i < |a| ==> SameLetter(a[i], b[i])
  {
    assert forall x: byte, y: byte :: SameLetter(x, y) <==> Lower(x) == Lower(y);
  }

  predicate SameLetter(x: byte, y: byte) {
    x == y || (65 <= x <= 90 && y == x + 32) || (65 <= y <= 90 && x == y + 32)
  }

  /** An earlier name is taken for the strings if and only if it can be read, begins with the
      first of them to the letter, and has just these parts up to case. */
  lemma AcceptsMeans(mem: seq<byte>, loc: nat, strings: seq<seq<byte>>, h: nat)
    requires Memory(mem) && loc < PACKET && strings != [] && |strings[0]| <= 63
    requires Decode(mem, PACKET, loc, loc).Some? ==> HostEnds(Spelt(mem, PACKET, loc), h)
    ensures Accepts(mem, loc, strings) <==>
      && Decode(mem, PACKET, loc, loc).Some?
      && mem[loc] == |strings[0]| && mem[loc + 1..loc + 1 + |strings[0]|] == strings[0]
      && |strings| == (var n := 1 + |Spelt(mem, PACKET, loc)| - h;
                       if Spelt(mem, PACKET, loc) == [] then 0 else if n > 4 then 4 else n)
      && forall i :: 0 <= i < |strings| ==> EqNoCase(strings[i], Part(Spelt(mem, PACKET, loc), h, i))
  {
    hide Read, Decode, Spelt, HostEnds, Part, EqNoCase;
    ReadIsFold(mem, PACKET, loc, loc, EMPTY_NAME);
    if Decode(mem, PACKET, loc, loc).Some? {
      ReadMeans(mem, PACKET, loc, h);
    }
    assert strings[0][..|strings[0]|] == strings[0];
  }

  /** The first earlier name that is taken is pointed to, if two bytes are left. */
  lemma PointsToFirst(mem: seq<byte>, index: nat, strings: seq<seq<byte>>, loc: nat)
    requires Memory(mem) && index <= PACKET && strings != [] && loc < index
    requires Accepts(mem, loc, strings) && forall k :: 0 <= k < loc ==> !Accepts(mem, k, strings)
    ensures Append(mem, index, strings) ==
      if index + 2 <= 1460 then Out(mem[index := 192 + loc / 256][index + 1 := loc % 256], index + 2, 2)
      else Out(mem, index, 0)
  {
    hide Accepts, FindMatch, Put;
    var m := FindMatch(mem, 0, index, strings);
    assert m == Some(loc);
    PointerParts(mem, index, loc);
  }

  lemma PointerParts(mem: seq<byte>, index: nat, loc: nat)
    requires Memory(mem) && index <= PACKET && loc < PACKET
    ensures AppendU16(mem, index, NAME_REF + loc) ==
      if index + 2 <= 1460 then Out(mem[index := 192 + loc / 256][index + 1 := loc % 256], index + 2, 2)
      else Out(mem, index, 0)
  {
    assert (NAME_REF + loc) / 256 == 192 + loc / 256 && (NAME_REF + loc) % 256 == loc % 256;
  }

  // ---------------------------------------------------------------------
  // Names that are spelt out.

  /** The labels stand at an offset, one after the other, each behind its length. */
  ghost predicate LabelsStand(mem: seq<byte>, at: nat, labels: seq<seq<byte>>, end: nat)
    decreases |labels|
  {
    if labels == [] then at == end
    else
      && 0 < |labels[0]| <= 63 && at + 1 + |labels[0]| <= |mem| && mem[at] == |labels[0]|
      && mem[at + 1..at + 1 + |labels[0]|] == labels[0]
      && LabelsStand(mem, at + 1 + |labels[0]|, labels[1..], end)
  }

  lemma WordStands(mem: seq<byte>, size: nat, start: nat, at: nat, word: seq<byte>)
    requires at + 1 + |word| <= size < |mem| && 0 < |word| <= 63
    requires mem[at] == |word| && mem[at + 1..at + 1 + |word|] == word
    ensures var rest, d := Decode(mem, size, start, at + 1 + |word|), Decode(mem, size, start, at);
      && (d.Some? <==> rest.Some?)
      && (d.Some? ==>
            d.value.next == rest.value.next && Labels(d.value.tokens) == [word] + Labels(rest.value.tokens))
  {
    if Decode(mem, size, start, at + 1 + |word|).Some? {
      var rest := Decode(mem, size, start, at + 1 + |word|).value;
      assert ([Label(word)] + rest.tokens)[1..] == rest.tokens;
    }
  }

  lemma {:induction false} BehindLabels(mem: seq<byte>, size: nat, start: nat, at: nat, labels: seq<seq<byte>>, end: nat)
    requires end <= size < |mem| && LabelsStand(mem, at, labels, end)
    ensures at <= end
    ensures var rest, d := Decode(mem, size, start, end), Decode(mem, size, start, at);
      && (d.Some? <==> rest.Some?)
      && (d.Some? ==> d.value.next == rest.value.next && Labels(d.value.tokens) == labels + Labels(rest.value.tokens))
    decreases |labels|
  {
    hide Decode, Labels;
    if labels != [] {
      var next := at + 1 + |labels[0]|;
      BehindLabels(mem, size, start, next, labels[1..], end);
      WordStands(mem, size, start, at, labels[0]);
    }
  }

  /** What follows the labels decides. With a zero byte or the end of the packet they are what
      the name spells; with a pointer to an offset in front of the name the labels from there
      are added. A pointer elsewhere, a label of more than 63 bytes, and one that runs over
      the end, cannot be read. */
  lemma StandingLabels(mem: seq<byte>, size: nat, start: nat, labels: seq<seq<byte>>, end: nat)
    requires end <= size < |mem| && LabelsStand(mem, start, labels, end)
    ensures var r, d, b := Read(mem, size, start, start, EMPTY_NAME).0, Decode(mem, size, start, start), mem[end] as int;
      if end == size || b == 0 then
        r == Some(end + 1) && d.Some? && Labels(d.value.tokens) == labels
      else if b >= 192 then
        var to := 256 * (b - 192) + mem[end + 1];
        if to >= start then r.None?
        else
          && r == (if Read(mem, size, to, to, EMPTY_NAME).0.Some? then Some(end + 2) else None)
          && var there := Decode(mem, size, to, to);
             && (r.Some? <==> d.Some?) && (r.Some? <==> there.Some?)
             && (r.Some? ==> Labels(d.value.tokens) == labels + Labels(there.value.tokens))
      else b > 63 || end + 1 + b > size ==> r.None?
  {
    hide Read, Labels, Decode, Fold, LabelsStand;
    ReadIsFold(mem, size, start, start, EMPTY_NAME);
    BehindLabels(mem, size, start, start, labels, end);
    if end == size || mem[end] == 0 {
      NothingStands(mem, size, start, end);
    } else if mem[end] >= 192 && Target(mem, end) < start {
      var to := Target(mem, end);
      ReadIsFold(mem, size, to, to, EMPTY_NAME);
      PointerStands(mem, size, start, end);
    } else {
      NoneStands(mem, size, start, end);
    }
  }

  lemma NothingStands(mem: seq<byte>, size: nat, start: nat, at: nat)
    requires at <= size < |mem| && (at == size || mem[at] == 0)
    ensures Decode(mem, size, start, at) == Some(Spelled([], at + 1)) && Labels([]) == []
  {
  }

  lemma NoneStands(mem: seq<byte>, size: nat, start: nat, at: nat)
    requires at < size < |mem| && mem[at] != 0 && (mem[at] >= 192 ==> Target(mem, at) >= start)
    ensures mem[at] > 63 || at + 1 + mem[at] > size ==> Decode(mem, size, start, at).None?
  {
  }

  lemma PointerStands(mem: seq<byte>, size: nat, start: nat, at: nat)
    requires at < size < |mem| && mem[at] >= 192 && Target(mem, at) < start
    ensures var to := Target(mem, at);
      var rest, d := Decode(mem, size, to, to), Decode(mem, size, start, at);
      && (d.Some? <==> rest.Some?)
      && (d.Some? ==> d.value.next == at + 2 && Labels(d.value.tokens) == Labels(rest.value.tokens))
  {
    if Decode(mem, size, Target(mem, at), Target(mem, at)).Some? {
      var rest := Decode(mem, size, Target(mem, at), Target(mem, at)).value;
      assert ([Hop] + rest.tokens)[1..] == rest.tokens;
    }
  }

  /** The bytes of a, b and local read as the host a.b and the domain local. */
  lemma DottedHostExample(mem: seq<byte>, size: nat, start: nat)
    requires start + 11 < size < |mem|
    requires mem[start..start + 11] == [1, 97, 1, 98, 5, 108, 111, 99, 97, 108, 0]
    ensures var r := Read(mem, size, start, start, EMPTY_NAME);
      r.0 == Some(start + 11) && r.1.parts == 2 && r.1.fields == [[97, 46, 98], [108, 111, 99, 97, 108], [], []]
  {
    hide Read, Decode, Unmarked, Joined, StandsAlone, Labels;
    var labels := [[97], [98], LOCAL];
    ExampleStands(mem, start);
    StandingLabels(mem, size, start, labels, start + 10);
    ExampleLabels();
    assert [[97], [98]] + [LOCAL] == labels;
    DottedHostReads(mem, size, start, [[97], [98]], LOCAL);
    ReadIsFold(mem, size, start, start, EMPTY_NAME);
  }

  lemma ExampleStands(mem: seq<byte>, start: nat)
    requires start + 11 <= |mem| && mem[start..start + 11] == [1, 97, 1, 98, 5, 108, 111, 99, 97, 108, 0]
    ensures LabelsStand(mem, start, [[97], [98], LOCAL], start + 10) && mem[start + 10] == 0
  {
    var s := mem[start..start + 11];
    assert forall k :: 0 <= k < 11 ==> mem[start + k] == s[k];
    assert s[1..2] == [97] && s[3..4] == [98] && s[5..10] == LOCAL;
    assert mem[start + 1..start + 2] == s[1..2] && mem[start + 3..start + 4] == s[3..4];
    assert mem[start + 5..start + 10] == s[5..10];
    var labels: seq<seq<byte>> := [[97], [98], LOCAL];
    assert labels[1..] == [[98], LOCAL] && labels[1..][1..] == [LOCAL] && labels[1..][1..][1..] == [];
    assert LabelsStand(mem, start + 10, [], start + 10);
    assert LabelsStand(mem, start + 4, [LOCAL], start + 10);
  }

  lemma ExampleLabels()
    ensures Unmarked([[97], [98], LOCAL]) == [[97], [98], LOCAL] && Joined([[97], [98]]) == [97, 46, 98]
    ensures !StandsAlone([98]) && StandsAlone(LOCAL) && CStr(LOCAL) == LOCAL
  {
    CStrOfNulFree([97]);
    CStrOfNulFree([98]);
    CStrOfNulFree(LOCAL);
    assert [[97], [98], LOCAL][..2] == [[97], [98]] && [[97], [98]][..1] == [[97]];
    assert [[97]][..0] == [];
  }
}
