/** The record loop of `mdns_parse_packet`, in place. */
module PacketParser {
  import opened Octets
  import opened NameReader
  import opened NameBuffers
  import opened Records
  import opened Messages

  /** One turn of the loop, up to the checks that reject a malformed packet. */
  method ReadRecord(packet: array<byte>, size: nat, at: nat, name: NameBuffer, buf: array<byte>)
    returns (rec: Option<Parsed>)
    requires at < size < packet.Length && name.Valid()
    requires buf != packet && buf != name.chars && packet != name.chars && FIELD <= buf.Length
    modifies name, name.chars, buf
    ensures packet[..] == old(packet[..]) && name.Valid()
    ensures rec == RecordAt(packet[..], size, at)
  {
    hide Parse, ReadU16, ReadU32;
    var next := ParseFqdn(packet, size, at, name, buf);
    assert packet[..] == old(packet[..]);
    if next.None? || next.value + 9 >= size {
      return None;
    }
    var c := next.value;
    var len := ReadU16(packet[..], c + 8);
    if c + FIXED + len > size {
      return None;
    }
    return Some(Parsed(name.Value(), ReadU16(packet[..], c), ReadU16(packet[..], c + 2),
                       ReadU32(packet[..], c + 4), c + FIXED, len));
  }

  /** The records from start on, and whether the walk ended at the end of the packet. */
  method WalkRecords(packet: array<byte>, size: nat, start: nat) returns (found: seq<Parsed>, clean: bool)
    requires size < packet.Length
    ensures var all := Walk(packet[..], size, start); found == all.0 && clean == all.1
  {
    hide RecordAt;
    ghost var mem := packet[..];
    ghost var all := Walk(mem, size, start);
    var name := new NameBuffer();
    var buf := new byte[FIELD];
    found := [];
    var content := start;
    while content < size
      invariant packet[..] == mem && name.Valid()
      invariant name.chars != packet && buf != packet && buf != name.chars
      invariant var rest := Walk(mem, size, content); all.0 == found + rest.0 && all.1 == rest.1
      decreases size - content
    {
      var rec := ReadRecord(packet, size, content, name, buf);
      if rec.None? {
        return found, false;
      }
      found := found + [rec.value];
      content := rec.value.data + rec.value.len;
    }
    return found, true;
  }
}
