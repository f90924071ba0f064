/** The DNS name reader of the mDNS component (`_mdns_read_fqdn`, `_mdns_parse_fqdn`).

    Memory is a sequence that is longer than the packet inside it: the reader
    may look at the one byte that follows the packet, as the source does when a
    compression pointer is cut off at the packet's end. */
module NameReader {
  import opened Octets

  /** Size of one field of mdns_name_t, and the number of fields. */
  const FIELD := 65
  const FIELDS := 4

  /** mdns_name_t as a value: the four C strings host, service, proto, domain. */
  datatype Name = Name(fields: seq<seq<byte>>, parts: nat, sub: bool, invalid: bool)

  const EMPTY_NAME := Name([[], [], [], []], 0, false, false)

  ghost predicate WellFormed(n: Name) {
    && |n.fields| == FIELDS
    && n.parts <= FIELDS
    && (forall i :: 0 <= i < FIELDS ==> |n.fields[i]| < FIELD && NulFree(n.fields[i]))
  }

  /** strlcat into a field of FIELD bytes. */
  function Concat(dst: seq<byte>, src: seq<byte>): (r: seq<byte>)
    requires |dst| < FIELD
    ensures |r| < FIELD && dst <= r
    ensures NulFree(dst) && NulFree(src) ==> NulFree(r)
  {
    var s := dst + src;
    if |s| < FIELD then s else s[..FIELD - 1]
  }

  /** The labels that may stand second without a leading underscore. */
  predicate Reserved(text: seq<byte>) {
    EqNoCase(text, LOCAL) || EqNoCase(text, ARPA) || EqNoCase(text, IP6) || EqNoCase(text, IN_ADDR)
  }

  /** A further label or pointer after four stored parts makes the name invalid. */
  function Enter(n: Name): Name {
    if n.parts == FIELDS then n.(invalid := true) else n
  }

  /** What one label does to the name. */
  function Store(n: Name, word: seq<byte>): (r: Name)
    requires WellFormed(n) && 0 < |word| <= 63
    requires n.parts == FIELDS ==> n.invalid
    ensures WellFormed(r)
  {
    var text := CStr(word);
    if n.parts == 1 && word[0] != UNDERSCORE && !Reserved(text) then
      n.(fields := n.fields[0 := Concat(Concat(n.fields[0], [DOT]), text)])
    else if EqNoCase(text, SUB) then
      n.(sub := true)
    else if !n.invalid then
      n.(fields := n.fields[n.parts := text], parts := n.parts + 1)
    else
      n
  }

  /** The offset a compression pointer at `at` refers to. */
  function Target(mem: seq<byte>, at: nat): nat
    requires at + 1 < |mem|
  {
    256 * ((mem[at] as int) % 64) + mem[at + 1]
  }

  /** `_mdns_read_fqdn` for a name that began at `start` and is read up to `at`:
      the offset after the name, or None, and the name as filled so far. */
  function Read(mem: seq<byte>, size: nat, start: nat, at: nat, name: Name): (r: (Option<nat>, Name))
    requires size < |mem| && WellFormed(name)
    ensures WellFormed(r.1)
    ensures at <= size && r.0.Some? ==> at < r.0.value <= size + 1
    decreases start, if at < size then size - at else 0
  {
    if at >= size || mem[at] == 0 then (Some(at + 1), name)
    else
      var n := Enter(name);
      if mem[at] < 0xC0 then
        if mem[at] > 63 || at + 1 + mem[at] > size then (None, n)
        else Read(mem, size, start, at + 1 + mem[at], Store(n, mem[at + 1..at + 1 + mem[at]]))
      else if Target(mem, at) >= start then (None, n)
      else
        var r := Read(mem, size, Target(mem, at), Target(mem, at), n);
        (if r.0.Some? then Some(at + 2) else None, r.1)
  }

  /** `_mdns_parse_fqdn`: the name read from scratch and moved to its places. */
  function Parse(mem: seq<byte>, size: nat, start: nat): (r: (Option<nat>, Name))
    requires size < |mem|
    ensures |r.1.fields| == FIELDS
    ensures start <= size && r.0.Some? ==> start < r.0.value <= size + 1
  {
    var r := Read(mem, size, start, start, EMPTY_NAME);
    if r.0.None? || r.1.parts == 0 || r.1.invalid then r
    else
      var n := Place(r.1);
      if EqNoCase(n.fields[3], LOCAL) || EqNoCase(n.fields[3], ARPA) then (r.0, n)
      else (r.0, n.(invalid := true))
  }

  /** Three parts are service, proto, domain; two parts are host, domain. */
  function Place(n: Name): (r: Name)
    requires |n.fields| == FIELDS
    ensures |r.fields| == FIELDS && r.parts == n.parts
  {
    if n.parts == 3 then n.(fields := [[], n.fields[0], n.fields[1], n.fields[2]])
    else if n.parts == 2 then n.(fields := [n.fields[0], [], [], n.fields[1]])
    else n
  }

  // ---------------------------------------------------------------------
  // The wire view: what section 4.1.4 of RFC 1035 says a name spells.

  datatype Token = Label(text: seq<byte>) | Hop

  datatype Spelled = Spelled(tokens: seq<Token>, next: nat)

  /** The labels and pointer hops met from `at`, and the offset after the name. */
  function Decode(mem: seq<byte>, size: nat, start: nat, at: nat): (r: Option<Spelled>)
    requires size < |mem|
    decreases start, if at < size then size - at else 0
  {
    if at >= size || mem[at] == 0 then Some(Spelled([], at + 1))
    else if mem[at] < 0xC0 then
      if mem[at] > 63 || at + 1 + mem[at] > size then None
      else
        match Decode(mem, size, start, at + 1 + mem[at])
        case None => None
        case Some(s) => Some(Spelled([Label(mem[at + 1..at + 1 + mem[at]])] + s.tokens, s.next))
    else if Target(mem, at) >= start then None
    else
      match Decode(mem, size, Target(mem, at), Target(mem, at))
      case None => None
      case Some(s) => Some(Spelled([Hop] + s.tokens, at + 2))
  }

  ghost predicate GoodTokens(ts: seq<Token>) {
    forall i :: 0 <= i < |ts| && ts[i].Label? ==> 0 < |ts[i].text| <= 63
  }

  ghost function Step(t: Token, n: Name): (r: Name)
    requires WellFormed(n) && (t.Label? ==> 0 < |t.text| <= 63)
    ensures WellFormed(r)
  {
    if t.Label? then Store(Enter(n), t.text) else Enter(n)
  }

  ghost function Fold(ts: seq<Token>, n: Name): (r: Name)
    requires WellFormed(n) && GoodTokens(ts)
    ensures WellFormed(r)
  {
    if ts == [] then n
    else Fold(ts[1..], Step(ts[0], n))
  }

  lemma {:induction false} DecodeGood(mem: seq<byte>, size: nat, start: nat, at: nat)
    requires size < |mem|
    ensures Decode(mem, size, start, at).Some? ==> GoodTokens(Decode(mem, size, start, at).value.tokens)
    decreases start, if at < size then size - at else 0
  {
    if at >= size || mem[at] == 0 {
    } else if mem[at] < 0xC0 {
      if mem[at] <= 63 && at + 1 + mem[at] <= size {
        DecodeGood(mem, size, start, at + 1 + mem[at]);
      }
    } else if Target(mem, at) < start {
      DecodeGood(mem, size, Target(mem, at), Target(mem, at));
    }
  }

  /** The reader refines the wire view: it succeeds on exactly the same inputs,
      stops at the same offset, and its name is the fold over the tokens. */
  lemma {:induction false} ReadIsFold(mem: seq<byte>, size: nat, start: nat, at: nat, name: Name)
    requires size < |mem| && WellFormed(name)
    ensures var d, r := Decode(mem, size, start, at), Read(mem, size, start, at, name);
      && (d.Some? <==> r.0.Some?)
      && (d.Some? ==> r.0.value == d.value.next && GoodTokens(d.value.tokens) && r.1 == Fold(d.value.tokens, name))
    decreases start, if at < size then size - at else 0
  {
    hide Store;
    DecodeGood(mem, size, start, at);
    if at >= size || mem[at] == 0 {
    } else if mem[at] < 0xC0 {
      if mem[at] <= 63 && at + 1 + mem[at] <= size {
        var word := mem[at + 1..at + 1 + mem[at]];
        ReadIsFold(mem, size, start, at + 1 + mem[at], Store(Enter(name), word));
        var d := Decode(mem, size, start, at + 1 + mem[at]);
        if d.Some? {
          assert ([Label(word)] + d.value.tokens)[1..] == d.value.tokens;
        }
      }
    } else if Target(mem, at) < start {
      var a := Target(mem, at);
      ReadIsFold(mem, size, a, a, Enter(name));
      var d := Decode(mem, size, a, a);
      if d.Some? {
        assert ([Hop] + d.value.tokens)[1..] == d.value.tokens;
      }
    }
  }

  // ---------------------------------------------------------------------
  // Which bytes a name depends on.

  /** The decoder looks at offset k, the terminating offset included. */
  ghost predicate Touches(mem: seq<byte>, size: nat, start: nat, at: nat, k: int)
    requires size < |mem|
    decreases start, if at < size then size - at else 0
  {
    if at >= size || mem[at] == 0 then k == at
    else if mem[at] < 0xC0 then
      if mem[at] > 63 || at + 1 + mem[at] > size then k == at
      else at <= k < at + 1 + mem[at] || Touches(mem, size, start, at + 1 + mem[at], k)
    else
      k == at || k == at + 1
      || (Target(mem, at) < start && Touches(mem, size, Target(mem, at), Target(mem, at), k))
  }

  /** A name keeps its meaning in any memory that agrees on its footprint, and in
      any packet that still contains the footprint. */
  lemma {:induction false} DecodeFrame(m1: seq<byte>, s1: nat, m2: seq<byte>, s2: nat, start1: nat, start2: nat, at: nat)
    requires s1 < |m1| && s2 < |m2|
    requires start1 <= start2
    requires Decode(m1, s1, start1, at).Some?
    requires forall k: int :: Touches(m1, s1, start1, at, k) ==> 0 <= k < s1 && k < s2 && m1[k] == m2[k]
    ensures Decode(m2, s2, start2, at) == Decode(m1, s1, start1, at)
    decreases start1, if at < s1 then s1 - at else 0
  {
    assert Touches(m1, s1, start1, at, at);
    if m1[at] == 0 {
    } else if m1[at] < 0xC0 {
      forall k | at <= k < at + 1 + m1[at]
        ensures k < s1 && k < s2 && m1[k] == m2[k]
      {
        assert Touches(m1, s1, start1, at, k);
      }
      assert Touches(m1, s1, start1, at, at + m1[at]);
      assert m1[at + 1..at + 1 + m1[at]] == m2[at + 1..at + 1 + m1[at]];
      var next := at + 1 + m1[at];
      forall k: int | Touches(m1, s1, start1, next, k)
        ensures 0 <= k < s1 && k < s2 && m1[k] == m2[k]
      {
        assert Touches(m1, s1, start1, at, k);
      }
      DecodeFrame(m1, s1, m2, s2, start1, start2, next);
    } else {
      assert Touches(m1, s1, start1, at, at + 1);
      var a := Target(m1, at);
      forall k: int | Touches(m1, s1, a, a, k)
        ensures 0 <= k < s1 && k < s2 && m1[k] == m2[k]
      {
        assert Touches(m1, s1, start1, at, k);
      }
      DecodeFrame(m1, s1, m2, s2, a, a, a);
    }
  }
}
