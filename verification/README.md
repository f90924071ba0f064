# mDNS responder, display and encrypted store

A Dafny model of three parts of an ESP32 firmware, with proofs.

* **mDNS wire format** (`Octets`, `NameReader`, `NameBuffers`, `NameMeaning`, `NameWriter`, `NameLimits`,
  `Records`, `RecordData`, `RecordMeaning`, `Messages`, `Txt`, `PacketWriters`, `PacketParser`): DNS names
  with suffix compression, record writers with back-patched lengths, the record walk, TXT data. The
  writer searches what it has written by running the reader on it, so the two are proved together: a
  value-level specification, an independent decoder after RFC 1035, what the specification means in
  labels, numbers and strings, and the in-place methods on the packet array.
* **mDNS responder** (`Responder*`, `ResponderEngine`, `Conflict`, `Mangle`, `SearchResults`,
  `SearchMeaning`): a transition system over time, the timer thread, the action queue and the service
  thread, every step under one lock; invariants over all runs; what each operation sends and lists;
  and the server record with its loops, updated in place, each method equal to its step function.
  Beside it the tie-breaks, the renamer, and the search results told by the records received.
* **Display and store** (`Bits`, `Frames`, `Lines`, `Displays`, `TrustStore`): a frame buffer against
  the pixels it shows, and a chained block cipher under a file store.

Read `ResponderExits`, `ResponderQuiet`, `ResponderEffects`, `NameWriter`, `NameMeaning` and `Messages`
for the main results. Memory is a sequence longer than the packet in it, so that reads past the end (one
byte of a cut-off pointer, stale bytes behind the write index) are modelled rather than excluded. Time is
unbounded in the model; below 2^31 ms that is what the 32-bit comparison computes
(`Responder.DueIsBefore`). A packet has an identity of its own. Received packets are arbitrary sequences
of the operations that a parsed packet can cause.

Where the code falls short of its documentation or of a standard, the code is modelled, an example is
given and the exact condition is proved:

* The name writer can take the beginning of the name it is writing for an earlier one and point to it:
  with stale bytes behind the write index (`NameLimits.StaleBytesBreakTheName`), and in an empty packet
  for the host name `local` (`NameLimits.HostCalledLocal`). The name reads back exactly when it points
  to something that begins before it (`NameWriter.ReadsBackExactly`).
* An instance named like a subtype is compressed to the subtype's name (`NameLimits.SubtypeAlias`). The
  wire name is right exactly when the earlier name has as many labels as it stands for strings
  (`NameWriter.WireRoundTrip`).
* A TXT entry without `=` before the last one spoils the entries after it (`Txt.KeyAloneHidesTheNext`,
  `Txt.TxtRoundTrip`).
* Deleting a service can drop the question of another instance of the same type
  (`ResponderRuns.WrongQuestionDropped`, `ResponderPurge.DeletionDropsItsQuestion`).
* SRV data are ordered by length before bytes, unlike section 8.2 of RFC 6762 (`Conflict.RfcDiffers`,
  `Conflict.RfcOnShorterHost`); TXT verdicts do not oppose each other when an entry has neither key nor
  value (`Conflict.EmptyEntryVerdicts`, `Conflict.TxtVerdictsOppose`).
* `_ssd1306_pixel` turns a flipped column over (`Displays.FlippedPlotMovesPixels`, `Displays.PlotFlipped`).
* `ssd1306_software_scroll` accepts start equal to end, for which the loop of `ssd1306_scroll_text`
  leaves the buffer (`Displays.ScrollLeavesTheBuffer`, `Displays.ScrollEnds`).
* `TPwrite` accepts data that `TPread` can never return (`TrustStore.UnreadableAt65521`,
  `TrustStore.ReadableUpTo65520`).
* Without a maximum the number of search results wraps at 256 (`SearchResults.CountsNoneOf256`,
  `SearchResults.UnlimitedCountWraps`).

One more has an example and a condition that suffices: on received TXT data the filling pass can store
more items than were counted (`Txt.StoresOneTooMany`), but not if every counted entry has an `=` or ends
the data (`Txt.InStepFits`).

## Model

| member | source | states |
|---|---|---|
| NameReader.Read | managed_components/espressif__mdns/mdns.c:415-466 | On every byte string the reader ends (a hop lowers the start, a label raises the index); an end offset lies in (start, packet_len+1]; at most four parts, each field NUL-terminated inside its 65 bytes, across recursion |
| NameReader.Parse | managed_components/espressif__mdns/mdns.c:3229-3261 | The parser of a whole name inherits the bounds of the reader for every packet and start |
| NameReader.ReadIsFold | managed_components/espressif__mdns/mdns.c:415-466 | The reader accepts exactly what decoding after section 4.1.4 of RFC 1035 accepts, stops at the same offset, and fills the structure label by label in wire order, to what `NameMeaning.ReadMeans` says |
| NameReader.DecodeFrame | managed_components/espressif__mdns/mdns.c:415-466 | A name means the same in any memory that agrees on the bytes it runs through, and in any packet that still holds them |
| NameBuffers.NameBuffer.constructor | managed_components/espressif__mdns/mdns.c:718-740 | A fresh structure is the empty name |
| NameBuffers.NameBuffer.Clear | managed_components/espressif__mdns/mdns.c:734-740 | The reset before a read gives the empty name, whatever was in the 260 bytes |
| NameBuffers.NameBuffer.CopyLabel | managed_components/espressif__mdns/mdns.c:446-449 | memcpy of a label and its NUL changes one field and no other |
| NameBuffers.NameBuffer.HostLength | managed_components/espressif__mdns/mdns.c:443-444 | The strlen loop of strlcat stays inside the host field |
| NameBuffers.NameBuffer.AppendToHost | managed_components/espressif__mdns/mdns.c:443-444 | strlcat stays inside the host field, cuts at 64 bytes and leaves the other fields |
| NameBuffers.FileLabel | managed_components/espressif__mdns/mdns.c:433-449 | One label in place does what the specification says: joined to the host (`NameMeaning.DottedHostReads`), taken as the subtype marker, filed or dropped |
| NameBuffers.FetchLabel | managed_components/espressif__mdns/mdns.c:422-432 | The byte loop copies the label, or fails at the end of the packet |
| NameBuffers.ReadFqdn | managed_components/espressif__mdns/mdns.c:415-466 | The in-place reader, with its loop and its recursion through one shared buffer, computes the specified result and structure (`NameMeaning.ReadMeans`) |
| NameBuffers.ShiftFields | managed_components/espressif__mdns/mdns.c:3247-3249 | The move of three fields up by one inside the 260 bytes |
| NameBuffers.ParseFqdn | managed_components/espressif__mdns/mdns.c:3229-3261 | The in-place parser computes the specified result and structure |
| NameMeaning.ReadMeans | managed_components/espressif__mdns/mdns.c:415-466 | For every name that can be decoded, compressed or not: the labels up to one that begins with `_` or is `local`, `arpa`, `ip6` or `in-addr` in any case are the host, with dots between them, cut at 64 bytes; the next three are the other parts; `_sub` labels count for nothing but the sub flag; more labels than that make the name invalid; where the host ends is settled by the labels (`NameMeaning.SomeHostEnd`, `NameMeaning.OneHostEnd`) |
| NameMeaning.DottedHostReads | managed_components/espressif__mdns/mdns.c:443-446 | Labels l1 .. lk, of which l2 .. lk do not stand alone, and one that does, read as the host `l1. .. .lk`, cut at 64 bytes, and that label as the next part, valid |
| NameMeaning.DottedHostExample | managed_components/espressif__mdns/mdns.c:443-446 | The bytes of `a`, `b`, `local` and a zero, anywhere in a packet, read as host `a.b` and `local` |
| NameMeaning.StandingLabels | managed_components/espressif__mdns/mdns.c:419-464 | Labels that stand in the packet, each behind its length, are what the name spells if a zero byte or the end of the packet follows; with a pointer to an offset in front of the name the labels from there are added, and the name ends two bytes on; a pointer elsewhere, a label longer than 63 bytes and one that runs over the end make it unreadable |
| NameMeaning.ParseMeans | managed_components/espressif__mdns/mdns.c:3229-3261 | Host and domain, service with proto and domain, or all four, each in its place, by the number of labels behind the host; invalid if and only if there are too many or none, the domain is neither `local` nor `arpa`, or (with all four) a label or a pointer follows |
| NameMeaning.NoCaseMeans | managed_components/espressif__mdns/mdns.c:433-446 | Names are compared with A to Z as a to z and every other byte as it is |
| NameWriter.FindMatch | managed_components/espressif__mdns/mdns.c:713-757 | The search finds the first offset below the index whose label and name the reader takes for the strings, and none only if there is none |
| NameMeaning.AcceptsMeans | managed_components/espressif__mdns/mdns.c:725-754 | An offset is accepted if and only if the first string stands there behind its length, the name there can be read, and it has as many parts as there are strings, each equal to its string up to case: host, then labels behind it |
| NameMeaning.PointsToFirst | managed_components/espressif__mdns/mdns.c:713-757 | With an offset accepted, the writer writes the two bytes of a pointer to the first one, if they fit, and nothing else |
| NameWriter.AppendFrame | managed_components/espressif__mdns/mdns.c:713-774 | Writing a name changes no byte below the old index and none from the new index on |
| NameWriter.AppendReturnsAdvance | managed_components/espressif__mdns/mdns.c:713-774 | The return value is the index advance, also when a nested call ran out of room, for labels below 255 bytes |
| NameWriter.DecodeWritten | managed_components/espressif__mdns/mdns.c:713-774 | A name written in full decodes to its labels and the names it points to, ending at the new write index, in any later memory that keeps those bytes |
| NameWriter.RoundTrip | managed_components/espressif__mdns/mdns.c:415-466 | For 1 to 4 labels of 1 to 63 NUL-free bytes (none `_sub`, the second with `_` or `local`), written in full with each accepted match in finished bytes, the reader finds as many parts, each equal up to case, and the new write index |
| NameWriter.ReadsBackExactly | managed_components/espressif__mdns/mdns.c:713-774 | A name written in full, with its earlier name in finished bytes, is read to its end if and only if what it points to, if anything, begins before it; then all parts are in their places |
| NameWriter.WireRoundTrip | managed_components/espressif__mdns/mdns.c:713-774 | On the wire a name written in full spells the strings if and only if the earlier name that it points to, if any, has just as many labels as it stands for strings; the sub flag that it reads back with is that of the earlier name, raised only if there are more labels, and with fewer than four strings whenever there are |
| NameWriter.LabelsAreFields | managed_components/espressif__mdns/mdns.c:433-449 | Without a marker, a joined label or a dropped one, the wire labels are the fields in order |
| NameWriter.SubIsAlias | managed_components/espressif__mdns/mdns.c:445-446 | A name whose reading raised the sub flag does not spell the strings |
| NameWriter.ParseRoundTrip | managed_components/espressif__mdns/mdns.c:3229-3261 | Four parts stay, three become service, proto and domain, two become host and domain, each equal up to case; the name is invalid if and only if it has four parts and the earlier name goes on after its last one |
| NameLimits.StaleBytesBreakTheName | managed_components/espressif__mdns/mdns.c:713-757 | Old bytes past the index make the writer point to itself, and the name cannot be read |
| NameLimits.HostCalledLocal | managed_components/espressif__mdns/mdns.c:713-774 | In an empty packet the host name `local` is written in eight bytes that point to themselves, and cannot be read |
| NameLimits.SubtypeAlias | managed_components/espressif__mdns/mdns.c:713-774 | An instance called like a subtype of its service is written as a pointer to the five labels of the subtype's name, one more than its strings |
| Records.NameDataAdvances | managed_components/espressif__mdns/mdns.c:786-821 | The eight-bit length of a written name is its index advance for names of the sizes in use |
| Records.WriteFrames | managed_components/espressif__mdns/mdns.c:786-1156 | When a PTR, subtype PTR, SDPTR, SRV, TXT, A or AAAA writer returns r > 0, r is the index advance, the fixed part stands behind the owner name and RDLENGTH counts the bytes after it |
| Records.DataFrame | managed_components/espressif__mdns/mdns.c:786-1156 | Record data are written at the index and count their own advance |
| RecordData.DataKept | managed_components/espressif__mdns/mdns.c:786-1156 | The data survive the back-patched length and everything written later |
| RecordData.PlainDataReads | managed_components/espressif__mdns/mdns.c:995-1156 | Addresses, and priority, weight and port, are read back as given |
| RecordData.TargetReads | managed_components/espressif__mdns/mdns.c:786-1055 | The name inside PTR and SRV data reads back and ends where the record ends |
| Messages.SubtypeRoundTrip | managed_components/espressif__mdns/mdns.c:836-869 | A subtype's five labels read back as four parts and the sub flag |
| Messages.SubNeverStored | managed_components/espressif__mdns/mdns.c:445-446 | No offset is ever taken for a name that begins with the subtype marker |
| Messages.OwnerParses | managed_components/espressif__mdns/mdns.c:3649-3669 | The parser finds the fixed part of a record behind its owner name, and the strings of a good name in their places |
| Messages.FixedReads | managed_components/espressif__mdns/mdns.c:553-583 | Type, class, TTL and length are read back from the fixed part |
| Messages.WalkFindsRecords | managed_components/espressif__mdns/mdns.c:3649-3669 | For any sequence of records with owner names in full, the walk name, +10, +RDLENGTH lands on exactly the record starts and ends at the end of the packet |
| PacketWriters.PacketWriter.AppendU8 | managed_components/espressif__mdns/mdns.c:493-501 | In place on the packet array and write index: one byte, refused at the end, equal to the specification in bytes, index and return value |
| PacketWriters.PacketWriter.AppendU16 | managed_components/espressif__mdns/mdns.c:512-520 | In place on the packet array and write index: two bytes, refused when they do not fit, equal to the specification in bytes, index and return value |
| PacketWriters.PacketWriter.AppendU32 | managed_components/espressif__mdns/mdns.c:531-541 | In place on the packet array and write index: four bytes, refused when they do not fit, equal to the specification in bytes, index and return value |
| PacketWriters.PacketWriter.SetU16 | managed_components/espressif__mdns/mdns.c:475-482 | In place on the packet array and write index: the back-patch, ignored past the end, equal to the specification in bytes, index and return value |
| PacketWriters.PacketWriter.AppendString | managed_components/espressif__mdns/mdns.c:605-615 | In place on the packet array and write index: length byte and label, equal to the specification in bytes, index and return value |
| PacketWriters.PacketWriter.IsAt | managed_components/espressif__mdns/mdns.c:725-754 | In place on the packet array and write index: the comparison at one offset is the accepted-match predicate, equal to the specification in bytes, index and return value |
| PacketWriters.PacketWriter.Search | managed_components/espressif__mdns/mdns.c:720-757 | In place on the packet array and write index: the memchr loop finds what the specification finds, equal to the specification in bytes, index and return value |
| PacketWriters.PacketWriter.AppendFqdn | managed_components/espressif__mdns/mdns.c:713-774 | In place on the packet array and write index: the compressing writer, equal to the specification in bytes, index and return value |
| PacketWriters.PacketWriter.AppendType | managed_components/espressif__mdns/mdns.c:553-583 | In place on the packet array and write index: the fixed part, equal to the specification in bytes, index and return value |
| PacketWriters.PacketWriter.AppendEntry | managed_components/espressif__mdns/mdns.c:628-646 | In place on the packet array and write index: one TXT entry, equal to the specification in bytes, index and return value |
| PacketWriters.PacketWriter.AppendTxtData | managed_components/espressif__mdns/mdns.c:962-983 | In place on the packet array and write index: entries, or one zero byte, equal to the specification in bytes, index and return value |
| PacketWriters.PacketWriter.AppendPtrRecord | managed_components/espressif__mdns/mdns.c:786-821 | In place on the packet array and write index: the PTR record, with the numbers of `RecordMeaning.WrittenNumbers`, equal to the specification in bytes, index and return value |
| PacketWriters.PacketWriter.AppendSubtypePtrRecord | managed_components/espressif__mdns/mdns.c:836-869 | In place on the packet array and write index: the subtype PTR record, equal to the specification in bytes, index and return value |
| PacketWriters.PacketWriter.AppendSdptrRecord | managed_components/espressif__mdns/mdns.c:881-919 | In place on the packet array and write index: the SDPTR record, equal to the specification in bytes, index and return value |
| PacketWriters.PacketWriter.AppendTxtRecord | managed_components/espressif__mdns/mdns.c:931-983 | In place on the packet array and write index: the TXT record, equal to the specification in bytes, index and return value |
| PacketWriters.PacketWriter.AppendSrvRecord | managed_components/espressif__mdns/mdns.c:995-1055 | In place on the packet array and write index: the SRV record, equal to the specification in bytes, index and return value |
| PacketWriters.PacketWriter.AppendARecord | managed_components/espressif__mdns/mdns.c:1067-1105 | In place on the packet array and write index: the A record, equal to the specification in bytes, index and return value |
| PacketWriters.PacketWriter.AppendAaaaRecord | managed_components/espressif__mdns/mdns.c:1118-1156 | In place on the packet array and write index: the AAAA record, equal to the specification in bytes, index and return value |
| PacketParser.ReadRecord | managed_components/espressif__mdns/mdns.c:3649-3669 | One turn of the record loop in place: the specified record, or a malformed packet |
| PacketParser.WalkRecords | managed_components/espressif__mdns/mdns.c:3649-3669 | The whole record loop computes the specified walk |
| RecordMeaning.WrittenNumbers | managed_components/espressif__mdns/mdns.c:553-583 | Behind the owner name of a record stand type 12, 16, 33, 1 or 28 for PTR, TXT, SRV, A or AAAA; class 1, or 0x8001 exactly if cache flush is asked for; TTL 0 if and only if the record is a goodbye, which the service discovery pointer never is, otherwise 120 for SRV, A and AAAA and 4500 for the rest |
| RecordMeaning.WalkSays | managed_components/espressif__mdns/mdns.c:3649-3669 | In what the walk finds each written record has those numbers, and for a good owner name host, service, proto and domain hold the strings that the writer was given and `local`; the service discovery pointer belongs to `_services._dns-sd._udp.local` |
| RecordMeaning.TargetSays | managed_components/espressif__mdns/mdns.c:786-1055 | The name in a PTR record is the instance in its service, in the service discovery pointer the service, in a SRV record the host, each in `local` |
| RecordMeaning.RecordAtMeans | managed_components/espressif__mdns/mdns.c:3649-3669 | A record is malformed if and only if its name cannot be read, or its ten bytes or its data run over the end; its numbers stand most significant byte first |
| RecordMeaning.WalkMeans | managed_components/espressif__mdns/mdns.c:3649-3669 | On any packet the walk finds the record at each offset behind the data of the one before, up to the end of the packet or the first malformed record |
| RecordMeaning.NumbersInOrder | managed_components/espressif__mdns/mdns.c:493-541 | Numbers are written most significant byte first, if and only if they end within the 1460 bytes |
| RecordMeaning.RoomForParts | managed_components/espressif__mdns/mdns.c:553-646 | A label, the fixed part and a TXT entry are written if and only if they leave the last of the 1460 bytes free |
| RecordMeaning.RoomForData | managed_components/espressif__mdns/mdns.c:1085-1156 | Addresses are written if and only if they end within the 1460 bytes; a SRV record without a host never is |
| RecordMeaning.NameFits | managed_components/espressif__mdns/mdns.c:713-774 | A name is written whenever its labels, spelt out with the final zero, leave room, and takes no more |
| RecordMeaning.NoHostNoAddress | managed_components/espressif__mdns/mdns.c:1067-1156 | An address record without a host is refused, and nothing is written |
| RecordMeaning.RecordFits | managed_components/espressif__mdns/mdns.c:786-1156 | Every other record is written whenever both its names, spelt out, its fixed part and its data leave room |
| Txt.EntriesWritten | managed_components/espressif__mdns/mdns.c:965-973 | Entries that all fit are written as length byte and text, one after the other |
| Txt.TxtDataReads | managed_components/espressif__mdns/mdns.c:931-983 | The receiver of a written TXT record gets exactly the encoded entries, or one zero byte |
| Txt.CountsAll | managed_components/espressif__mdns/mdns.c:3329-3351 | The counting pass counts the entries of every list, key-only entries included |
| Txt.FillExact | managed_components/espressif__mdns/mdns.c:3402-3442 | The filling pass gives the entries back if and only if no entry before the last is a key alone |
| Txt.TxtRoundTrip | managed_components/espressif__mdns/mdns.c:3372-3461 | For entries with non-empty `=`-free keys and at most 255 bytes: same keys, values and order, empty values absent, if and only if no entry before the last is a key alone; the counts are always right |
| Txt.KeyAloneHidesTheNext | managed_components/espressif__mdns/mdns.c:3402-3442 | The list `a`, `b=c` counts two entries and comes back as none |
| Txt.EmptyRecordReads | managed_components/espressif__mdns/mdns.c:3372-3383 | The TXT record of a service without entries comes back as no entries |
| Txt.NamelessIsSkipped | managed_components/espressif__mdns/mdns.c:3402-3412 | An entry that begins with `=` counts and gives no item, and reading goes on behind it |
| Txt.InStepFits | managed_components/espressif__mdns/mdns.c:3402-3442 | For any received data the filling pass stores no more than was counted if every counted entry has an `=` or ends the data |
| Txt.StoresOneTooMany | managed_components/espressif__mdns/mdns.c:3402-3442 | Nine bytes that count two entries and fill in three |
| Txt.CountItems | managed_components/espressif__mdns/mdns.c:3329-3351 | The counting loop, error included |
| Txt.ItemKeyLength | managed_components/espressif__mdns/mdns.c:3356-3367 | The search for `=`, -1 for an entry without a key |
| Txt.CreateResult | managed_components/espressif__mdns/mdns.c:3372-3461 | Both passes with their error exits; the loop stays inside the counted arrays if and only if the filling pass stores no more than was counted, and then gives the specified items |
| Responder.DueIsBefore | managed_components/espressif__mdns/mdns.c:5150-5150 | Below 2^31 ms the wrapped 32-bit comparison is the plain one |
| Responder.NotAbout | managed_components/espressif__mdns/mdns.c:2594-2614 | Exactly the answers about the service go |
| ResponderQueue.InsertSplits | managed_components/espressif__mdns/mdns.c:1525-1543 | A packet goes behind all that are due no later and in front of the rest: sorted, first in first out on ties |
| ResponderQueue.ThinPlaces | managed_components/espressif__mdns/mdns.c:1564-1584 | Removing or editing packets keeps the order of the rest |
| ResponderQueue.ThinKeeps | managed_components/espressif__mdns/mdns.c:1548-1584 | Removing packets keeps the transmit protocol: actions of removed packets are no longer matched |
| ResponderQueue.LiveActionAtHead | managed_components/espressif__mdns/mdns.c:5067-5078 | A transmit action at the front finds its packet queued at the head exactly if the packet is still listed |
| ResponderQueue.NothingStuck | managed_components/espressif__mdns/mdns.c:5136-5166 | With no action pending no packet is marked queued |
| ResponderQueue.TimerKeeps | managed_components/espressif__mdns/mdns.c:5136-5166 | The scheduler hands over the first packet that is not queued and keeps the protocol |
| ResponderQueue.TransmitKeeps | managed_components/espressif__mdns/mdns.c:4753-4808 | Transmitting and re-scheduling the head packet keeps the protocol |
| ResponderQueue.ExecKeeps | managed_components/espressif__mdns/mdns.c:4886-5105 | Every operation of the service thread keeps the protocol |
| ResponderQueue.StepKeeps | managed_components/espressif__mdns/mdns.c:5067-5166 | Every step of either thread keeps the protocol |
| ResponderQueue.ReachableQueueOk | managed_components/espressif__mdns/mdns.c:5067-5166 | In every reachable state: list sorted by due time, queued packets a prefix, pending transmit actions whose packets are listed match that prefix in order, one each |
| ResponderProbe.ProbePacketClaims | managed_components/espressif__mdns/mdns.c:2008-2057 | A fresh probe claims every service it probes for and, when asked, the host's addresses, and is no answer |
| ResponderProbe.ProbePacketSays | managed_components/espressif__mdns/mdns.c:2008-2057 | A fresh probe claims nothing else, asks no question twice, and asks for unicast answers only |
| ResponderProbe.AnnouncementSticks | managed_components/espressif__mdns/mdns.c:2092-2127 | The announcement made from a probe says something |
| ResponderProbe.InitProbeOk | managed_components/espressif__mdns/mdns.c:2212-2247 | Starting over leaves the PCB with one packet, a fresh probe, or running without a host name; no service is probed twice; other PCBs keep their packets |
| ResponderProbe.ProbeAllOk | managed_components/espressif__mdns/mdns.c:2335-2352 | Restarting every ready PCB makes each one good |
| ResponderProbe.AnnounceOk | managed_components/espressif__mdns/mdns.c:2292-2330 | Announcing keeps the invariant in each of its four cases |
| ResponderProbe.ReplyOk | managed_components/espressif__mdns/mdns.c:3997-3999 | A reply, at once or on the list, keeps the invariant: a PCB that is probing gives none |
| ResponderContents.ProbePairs | managed_components/espressif__mdns/mdns.c:2015-2042 | Questions and claims of a probe go in pairs, one per service, all asking for a unicast answer |
| ResponderContents.ProbeClaimsExactly | managed_components/espressif__mdns/mdns.c:2008-2057 | A probe claims exactly the services it asks for and, when it asks for the host name, the addresses |
| ResponderContents.AnnouncesClaims | managed_components/espressif__mdns/mdns.c:2092-2127 | From the claims of a probe the announcement takes exactly the four records of every service, their hosts' addresses, and the addresses claimed |
| ResponderContents.AnnouncementTakesIn | managed_components/espressif__mdns/mdns.c:2301-2317 | A pending announcement takes in exactly the records and addresses of further services and loses no answer |
| ResponderProbe.ProbingTransmit | managed_components/espressif__mdns/mdns.c:4753-4808 | The first two probes are scheduled again, the third becomes an announcement |
| ResponderProbe.PastTransmit | managed_components/espressif__mdns/mdns.c:4753-4808 | A PCB that announces keeps an announcement until it runs, replies that are re-sent included |
| ResponderProbe.TransmitOk | managed_components/espressif__mdns/mdns.c:4753-4808 | Transmission keeps the invariant of every PCB |
| ResponderPurge.PurgeLocal | managed_components/espressif__mdns/mdns.c:2619-2698 | What deletion does to a PCB depends on that PCB's packets alone |
| ResponderPurge.PurgeProbing | managed_components/espressif__mdns/mdns.c:2645-2660 | A PCB that probes goes on for its other services and addresses; with none left it is set to running |
| ResponderPurge.PurgePast | managed_components/espressif__mdns/mdns.c:2683-2688 | A PCB that announces keeps something to announce, or is set to running |
| ResponderPurge.PurgeLeaves | managed_components/espressif__mdns/mdns.c:2619-2698 | Deletion goes through the list in order: a packet stays without the service, or goes if nothing else was in it |
| ResponderPurge.RemoveScheduledOk | managed_components/espressif__mdns/mdns.c:2619-2698 | Deletion keeps the invariant |
| ResponderPurge.DeleteLeavesNoTrace | managed_components/espressif__mdns/mdns.c:5020-5042 | After ACTION_SERVICE_DEL no answer, server or additional record mentions the service, no ready probing PCB keeps it, no packet is empty, the others keep order and contents |
| ResponderPurge.QuestionOfDeleted | managed_components/espressif__mdns/mdns.c:2662-2681 | After ACTION_SERVICE_DEL the listed probe of a PCB that goes on probing, in any phase, lacks exactly the first question that asked for the deleted service's type, whichever service it was for |
| ResponderPurge.DeletionDropsItsQuestion | managed_components/espressif__mdns/mdns.c:2662-2681 | That probe loses exactly the deleted service's own question if and only if the first question for its type is its own |
| ResponderRuns.WrongQuestionDropped | managed_components/espressif__mdns/mdns.c:2662-2681 | A run: two instances of one type are added and probed; deleting the second drops the question of the first, which is still probed for, and leaves the question of the second |
| ResponderRuns.ExecOk | managed_components/espressif__mdns/mdns.c:4886-5105 | Every operation keeps the probing invariant |
| ResponderRuns.StepOk | managed_components/espressif__mdns/mdns.c:4886-5166 | Every step of either thread keeps it |
| ResponderRuns.ReachableFine | managed_components/espressif__mdns/mdns.c:4886-5166 | It holds in every reachable state, for every interleaving |
| ResponderExits.HeldKept | managed_components/espressif__mdns/mdns.c:2156-2352 | No operation but deletion takes a ready PCB out of probing |
| ResponderExits.DeleteEndsProbing | managed_components/espressif__mdns/mdns.c:2645-2660 | Deletion ends a PCB's probing, to running, if and only if it probes for that service alone and for no address |
| ResponderExits.ClearEndsProbing | managed_components/espressif__mdns/mdns.c:5045-5056 | Clearing the services ends it if and only if there is no address probe and all probed services are among them |
| ResponderExits.LeavesExactlyThen | managed_components/espressif__mdns/mdns.c:4886-5105 | Any operation takes a ready probing PCB out of probing if and only if it deletes all that the PCB is probing for |
| ResponderExits.TransmitEndsProbing | managed_components/espressif__mdns/mdns.c:4753-4808 | Transmission ends it exactly with the third send of the one probe, the sends more than 250 ms apart, and the PCB announces |
| ResponderExits.AnnouncesWhatWasProbed | managed_components/espressif__mdns/mdns.c:4767-4784 | When the listed probe has been sent for the third time, however it was edited before, the PCB's one packet announces exactly the four records of every service still probed for, their hosts' addresses, and the addresses that the probe claimed |
| ResponderExits.ProbeBeforeSpeaking | managed_components/espressif__mdns/mdns.c:2156-2247 | In every reachable state a ready PCB in PROBE_k has one packet, its probe, sent k-1 times before; nothing authoritative was sent by a ready PCB while it probed (section 8.1 of RFC 6762) |
| ResponderExits.WaysOutOfProbing | managed_components/espressif__mdns/mdns.c:4886-5105 | In every run such a PCB leaves probing only by that third send, or by an operation of the input being executed that deletes, in the state it is executed in, all that the PCB is probing for |
| ResponderEffects.DeletionSaysGoodbye | managed_components/espressif__mdns/mdns.c:5020-5042 | ACTION_SERVICE_DEL adds to the log exactly one authoritative packet with the PTR record of the service, sent now, for each ready PCB that is running, in order, if the host is named, and nothing else |
| ResponderEffects.ClearingSaysGoodbye | managed_components/espressif__mdns/mdns.c:5045-5056 | ACTION_SERVICES_CLEAR likewise, for all services at once; without services it sends nothing |
| ResponderEffects.RenamingSaysGoodbye | managed_components/espressif__mdns/mdns.c:4900-4908 | ACTION_HOSTNAME_SET likewise under the old name, with the addresses of their hosts, for the services without an instance name, if any |
| ResponderEffects.NewInstanceSaysGoodbye | managed_components/espressif__mdns/mdns.c:4909-4929 | The goodbye of ACTION_INSTANCE_SET and ACTION_SERVICE_INSTANCE_SET, which changes nothing else |
| ResponderEffects.ByesSend | managed_components/espressif__mdns/mdns.c:2273-2287 | From any PCB on: no goodbye from a PCB that is not ready or not running, or without a host name; the packets in order of their PCBs, identities ascending |
| ResponderEffects.EnableProbesAll | managed_components/espressif__mdns/mdns.c:4026-4035 | An enabled PCB is ready and probes for every service and the addresses, or runs without a host name; one that cannot be opened has no failures and stays as it is |
| ResponderEffects.DisableCloses | managed_components/espressif__mdns/mdns.c:4040-4054 | A disabled PCB is off, not ready, probes for nothing and has no packet; the others keep theirs |
| ResponderEffects.AddedIsProbed | managed_components/espressif__mdns/mdns.c:4916-4920 | A new service comes first in the list, and every ready PCB probes for it besides what it was probing for |
| ResponderEffects.RenamedProbesAll | managed_components/espressif__mdns/mdns.c:2451-2469 | Under a new host name every ready PCB has one packet, a probe for exactly all services and the addresses, due in 120 to 247 ms (1000 to 1127 after more than five failures); the packets of the others go |
| ResponderEffects.RestartProbesAll | managed_components/espressif__mdns/mdns.c:2451-2469 | A restart does the same; without a host name every ready PCB runs and no packet is left |
| ResponderEffects.InitStartsOver | managed_components/espressif__mdns/mdns.c:2156-2247 | Starting over leaves a PCB exactly one packet: the probe for the given services and for those it was probing for, due in that time, with one question and one claim per service, and host questions and addresses exactly if asked for now or before |
| ResponderEffects.ProbeAllStartsOver | managed_components/espressif__mdns/mdns.c:2335-2352 | Every ready PCB starts over, with its old services or without, and the others stay |
| ResponderEffects.InitProbeEffect | managed_components/espressif__mdns/mdns.c:2212-2247 | So does a PCB that starts over for itself |
| ResponderEffects.ProbeAllEffect | managed_components/espressif__mdns/mdns.c:2335-2352 | So do all ready PCBs when all are asked to probe |
| ResponderEffects.ProbeFailedEffect | managed_components/espressif__mdns/mdns.c:3786-3786 | A lost tie-break counts one more failure of that PCB, and changes nothing else |
| ResponderEffects.ByeAndProbeEffect | managed_components/espressif__mdns/mdns.c:3811-3814 | After a conflict over an instance name: one goodbye of that PCB for the service, then the PCB starts over with it; nothing while it probes |
| ResponderEffects.RunningAnnounces | managed_components/espressif__mdns/mdns.c:2318-2328 | A running PCB lists one packet, due at once, with exactly the four records of every service and, if asked for, the addresses in the server part, and is in ANNOUNCE_1; without a host name nothing happens |
| ResponderEffects.AnnouncingAnnounces | managed_components/espressif__mdns/mdns.c:2298-2317 | A PCB that announces takes exactly those records into its first packet and goes back to ANNOUNCE_1; with the addresses, the first A and AAAA of the own host leave the additional part |
| ResponderEffects.OthersDoNotAnnounce | managed_components/espressif__mdns/mdns.c:2292-2330 | A PCB that probes starts over with the services; one that is not ready or has not started does nothing |
| ResponderEffects.RemoveAnswerEffect | managed_components/espressif__mdns/mdns.c:1607-1636 | An answer that was heard removes the first answer of its type and service from each reply to a distributed query of that PCB, and nothing else from any packet |
| ResponderEffects.Replies | managed_components/espressif__mdns/mdns.c:1800-1905 | A PCB past probing replies with just the given questions, answers and additional records: on the list after the delay if others may reply too, otherwise sent at once; a PCB that probes or is off does not |
| ResponderEffects.TransmitSends | managed_components/espressif__mdns/mdns.c:4753-4808 | The head packet is sent as it is, unless its PCB is off |
| ResponderEffects.TransmitLists | managed_components/espressif__mdns/mdns.c:4753-4808 | ... and comes back after 250 ms as the next probe, its questions no longer asking for unicast after the first, or after 1000 ms as the next announcement; a new announcement follows the third probe by 250 ms; nothing comes back from the third announcement or a running PCB |
| ResponderEffects.TransmitSteps | managed_components/espressif__mdns/mdns.c:4753-4808 | The phase steps by one from PROBE_1 to RUNNING; with the third probe nothing is left to probe for and the failures are forgotten |
| ResponderEffects.DeletedFromList | managed_components/espressif__mdns/mdns.c:5020-5056 | Exactly the deleted service leaves the list; clearing empties it |
| ResponderEffects.OtherQuestionsStay | managed_components/espressif__mdns/mdns.c:2662-2681 | Deletion takes no question for a host, for another type, or for one kind of record out of the probe |
| ResponderEffects.DeleteEndsAnnouncing | managed_components/espressif__mdns/mdns.c:2683-2688 | A PCB that announces is set to running by a deletion if and only if one of its packets had answers, all about the deleted service |
| ResponderEffects.QueueBounded | managed_components/espressif__mdns/mdns.c:317-334 | In every run at most sixteen actions wait |
| ResponderEffects.OneMoreAction | managed_components/espressif__mdns/mdns.c:5136-5166 | With room in the queue an input is taken, and the timer hands over the first packet that is not queued exactly if it is due |
| ResponderQuiet.TransmitLowers | managed_components/espressif__mdns/mdns.c:4753-4808 | Each transmission lowers steps left to running plus list length |
| ResponderQuiet.QuietRun | managed_components/espressif__mdns/mdns.c:4753-4808 | Without input a run of any length and interleaving sends at most as many packets as that measure drops |
| ResponderQuiet.EmptyListMeansDone | managed_components/espressif__mdns/mdns.c:2292-2330 | With nothing scheduled every ready PCB is running |
| ResponderQuiet.Settles | managed_components/espressif__mdns/mdns.c:5136-5166 | From every state without pending input the two threads can empty the list |
| ResponderQuiet.FallsSilent | managed_components/espressif__mdns/mdns.c:4753-4808 | ... with every ready PCB running, within the bound |
| ResponderEngine.AllocAnswer | managed_components/espressif__mdns/mdns.c:1670-1695 | Loop on a list, equal to its specification: search, and append at the end |
| ResponderEngine.DeallocAnswer | managed_components/espressif__mdns/mdns.c:1641-1665 | Loop on a list, equal to its specification: the first answer of the type and service goes |
| ResponderEngine.DeallocScheduledServiceAnswers | managed_components/espressif__mdns/mdns.c:2594-2614 | Loop on a list, equal to its specification: the two loops over head and tail |
| ResponderEngine.RemoveQuestion | managed_components/espressif__mdns/mdns.c:2662-2681 | Loop on a list, equal to its specification: the first question of the type goes |
| ResponderEngine.RemoveProbeService | managed_components/espressif__mdns/mdns.c:2637-2652 | Loop on a list, equal to its specification: search and shift in the probe list |
| ResponderEngine.ProbeParts | managed_components/espressif__mdns/mdns.c:2015-2042 | Loop on a list, equal to its specification: questions and SRV answers of a probe |
| ResponderEngine.AnnounceServers | managed_components/espressif__mdns/mdns.c:2100-2125 | Loop on a list, equal to its specification: the announcement from a probe's servers |
| ResponderEngine.NewServices | managed_components/espressif__mdns/mdns.c:2222-2236 | Loop on a list, equal to its specification: the nested loops that leave out what is probed already |
| ResponderEngine.UnlinkBehindHead | managed_components/espressif__mdns/mdns.c:1573-1583 | Loop on a list, equal to its specification: the second loop of the clearing |
| ResponderEngine.Server.ScheduleTxPacket | managed_components/espressif__mdns/mdns.c:1525-1543 | In place on the server record, the whole new state equal to the step function: sorted insertion |
| ResponderEngine.Server.ClearPcbTxQueue | managed_components/espressif__mdns/mdns.c:1564-1584 | In place on the server record, the whole new state equal to the step function: removal of a PCB's packets |
| ResponderEngine.Server.NextPcbPacket | managed_components/espressif__mdns/mdns.c:1592-1602 | In place on the server record, the whole new state equal to the step function: search for a PCB's first packet |
| ResponderEngine.Server.InitPcbProbeNewService | managed_components/espressif__mdns/mdns.c:2156-2203 | In place on the server record, the whole new state equal to the step function: a new probe |
| ResponderEngine.Server.InitPcbProbe | managed_components/espressif__mdns/mdns.c:2212-2247 | In place on the server record, the whole new state equal to the step function: starting over |
| ResponderEngine.Server.AnnouncePcb | managed_components/espressif__mdns/mdns.c:2292-2330 | In place on the server record, the whole new state equal to the step function: announcing |
| ResponderEngine.Server.ProbeAllPcbs | managed_components/espressif__mdns/mdns.c:2335-2352 | In place on the server record, the whole new state equal to the step function: every ready PCB |
| ResponderEngine.Server.RestartAllPcbs | managed_components/espressif__mdns/mdns.c:2451-2469 | In place on the server record, the whole new state equal to the step function: restart |
| ResponderEngine.Server.SendBye | managed_components/espressif__mdns/mdns.c:2273-2287 | In place on the server record, the whole new state equal to the step function: goodbyes of the ready and running PCBs (`ResponderEffects.ByesSend`) |
| ResponderEngine.Server.TxHandlePacket | managed_components/espressif__mdns/mdns.c:4753-4808 | In place on the server record, the whole new state equal to the step function: the transmit switch |
| ResponderEngine.Server.RemoveScheduledServicePackets | managed_components/espressif__mdns/mdns.c:2619-2698 | In place on the server record, the whole new state equal to the step function: deletion from the list, PCBs included |
| ResponderEngine.Server.RemoveScheduledAnswer | managed_components/espressif__mdns/mdns.c:1607-1636 | In place on the server record, the whole new state equal to the step function: removal of an answer that another responder has given |
| ResponderEngine.Server.EnablePcb | managed_components/espressif__mdns/mdns.c:4026-4035 | In place on the server record, the whole new state equal to the step function: enabling |
| ResponderEngine.Server.DisablePcb | managed_components/espressif__mdns/mdns.c:4040-4054 | In place on the server record, the whole new state equal to the step function: disabling |
| ResponderEngine.Server.DeleteService | managed_components/espressif__mdns/mdns.c:5020-5042 | In place on the server record, the whole new state equal to the step function: ACTION_SERVICE_DEL (`ResponderEffects.DeletionSaysGoodbye`) |
| ResponderEngine.Server.RemoveAllServices | managed_components/espressif__mdns/mdns.c:5045-5056 | In place on the server record, the whole new state equal to the step function: ACTION_SERVICES_CLEAR |
| ResponderEngine.Server.Perform | managed_components/espressif__mdns/mdns.c:4886-5105 | In place on the server record, the whole new state equal to the step function: one operation |
| ResponderEngine.Server.SchedulerRun | managed_components/espressif__mdns/mdns.c:5136-5166 | In place on the server record, the whole new state equal to the step function: the timer thread, keeping the invariant |
| ResponderEngine.Server.PostInput | managed_components/espressif__mdns/mdns.c:317-334 | In place on the server record, the whole new state equal to the step function: an input, which the full queue refuses |
| ResponderEngine.Server.HandleTx | managed_components/espressif__mdns/mdns.c:5067-5078 | In place on the server record, the whole new state equal to the step function: ACTION_TX_HANDLE |
| ResponderEngine.Server.ExecuteAction | managed_components/espressif__mdns/mdns.c:4886-5105 | In place on the server record, the whole new state equal to the step function: the service thread, keeping the invariant |
| Conflict.OrderIsTotal | managed_components/espressif__mdns/mdns.c:2738-2790 | The order of the data (length first, then bytes) is total and strict |
| Conflict.OrderTransitive | managed_components/espressif__mdns/mdns.c:2738-2790 | ... and transitive |
| Conflict.SrvDataInjective | managed_components/espressif__mdns/mdns.c:2756-2779 | The compared data determine priority, weight, port and host |
| Conflict.SrvVerdictsOppose | managed_components/espressif__mdns/mdns.c:2738-2790 | Two responders in `local` with host names reach opposite verdicts, and 0 exactly for identical priority, weight, port and host |
| Conflict.SrvVerdictTransitive | managed_components/espressif__mdns/mdns.c:2738-2790 | Not losing is transitive |
| Conflict.OneWinner | managed_components/espressif__mdns/mdns.c:2738-2790 | Among contenders that all differ exactly one never loses |
| Conflict.CompareMeans | managed_components/espressif__mdns/mdns.c:2783-2788 | Of data of one length one comes first if and only if its first byte that differs is less |
| Conflict.SrvVerdictMeans | managed_components/espressif__mdns/mdns.c:2738-2790 | A received record wins if and only if its host is longer, or as long with a greater priority, or the same priority and a greater weight, and so on to port and host; there is no verdict without an own host name |
| Conflict.RfcOnSameLength | managed_components/espressif__mdns/mdns.c:2747-2753 | On data of one length the order is that of section 8.2 of RFC 6762 |
| Conflict.RfcOnShorterHost | managed_components/espressif__mdns/mdns.c:2747-2788 | On data of different lengths it is that order if and only if priority, weight and port of the shorter host do not come behind those of the longer |
| Conflict.RfcDiffers | managed_components/espressif__mdns/mdns.c:2747-2753 | Concrete records on which the two orders differ |
| Conflict.TxtVerdictsOppose | managed_components/espressif__mdns/mdns.c:2795-2834 | TXT verdicts oppose each other if and only if it is not the case that one side has a single entry without key and value and the other the same or none; then 0 means equal data |
| Conflict.TxtVerdictMeans | managed_components/espressif__mdns/mdns.c:2795-2834 | Received data of one byte never win; other data win against no entries when they are longer than that, and against entries if and only if they are longer, or as long and greater in the first byte that differs; the verdict is 0 for the same data, and for nothing against no entries |
| Conflict.EmptyEntryVerdicts | managed_components/espressif__mdns/mdns.c:2795-2834 | No entries, and one entry without key and value: the same byte is sent, and the verdicts are 0 and -1 |
| Conflict.BufferVerdictIs | managed_components/espressif__mdns/mdns.c:628-646 | The packet-size limit of the entry writer does not change the verdict on data shorter than a packet or of another length |
| Conflict.LongEntryIsLeftOut | managed_components/espressif__mdns/mdns.c:628-646 | An entry of the length of a packet is left out, and what the local buffer held is compared |
| Conflict.MemCmp | managed_components/espressif__mdns/mdns.c:2783-2788 | The byte comparison loop |
| Conflict.CheckSrvCollision | managed_components/espressif__mdns/mdns.c:2738-2790 | Lengths, both data buffers and memcmp give the specified verdict |
| Conflict.CheckTxtCollision | managed_components/espressif__mdns/mdns.c:2795-2834 | Early exits, length loop, encoding loop with its packet-size limit, and memcmp give the specified verdict, whatever the local buffer held, for data that come in a packet |
| Mangle.ItoaValue | managed_components/espressif__mdns/mdns.c:233-233 | A printed number reads back |
| Mangle.StemOfNumbered | managed_components/espressif__mdns/mdns.c:199-213 | A number behind a `-` is found again by strrchr and strtol |
| Mangle.MangleCountsUp | managed_components/espressif__mdns/mdns.c:199-236 | A name with or without a number gets the next number |
| Mangle.NumberedMeans | managed_components/espressif__mdns/mdns.c:199-213 | A name counts as numbered if and only if what follows its last `-` is nothing, or white space, perhaps a `+`, and digits |
| Mangle.PlainNames | managed_components/espressif__mdns/mdns.c:199-213 | A name without a `-` gets `-2` |
| Mangle.RenamedIs | managed_components/espressif__mdns/mdns.c:199-236 | After n conflicts the name is base-(v+n), while that is below 2^31 |
| Mangle.RenamedBeyond | managed_components/espressif__mdns/mdns.c:199-236 | Behind 2147483647 the addition wraps: the name ends in `-2147483648`, reads as the largest int again, and grows by one dash with each conflict |
| Mangle.NamesNeverRepeat | managed_components/espressif__mdns/mdns.c:199-236 | All names of a run differ, the first included, however many conflicts there are |
| Mangle.MangleFits | managed_components/espressif__mdns/mdns.c:214-233 | For every name the new one and its NUL fit the strlen+2 or strlen+3 bytes allocated |
| Mangle.Rename | managed_components/espressif__mdns/mdns.c:199-236 | The buffer that is copied and overwritten holds the specified name |
| SearchResults.ApplyOk | managed_components/espressif__mdns/mdns.c:4363-4582 | Every record keeps the bookkeeping, and results only gain knowledge and lose time to live |
| SearchResults.ApplyAllOk | managed_components/espressif__mdns/mdns.c:4363-4582 | ... under any sequence of records |
| SearchResults.BookkeepingHolds | managed_components/espressif__mdns/mdns.c:4396-4582 | With max_results >= 1 num_results is the list length and within the maximum, addresses are listed once, a PTR search has one result per interface, protocol and non-empty case-folded instance |
| SearchResults.UnlimitedCountWraps | managed_components/espressif__mdns/mdns.c:4414-4436 | Whatever a search without a maximum has received, its count is right if and only if there are fewer than 256 results |
| SearchResults.CountsNoneOf256 | managed_components/espressif__mdns/mdns.c:4454-4491 | After the PTR records of 256 instances it holds 256 results and counts none |
| SearchResults.SearchOnce.AddAddressTo | managed_components/espressif__mdns/mdns.c:4371-4391 | In place on the search record, equal to the specification: an address once |
| SearchResults.SearchOnce.AddIpRecord | managed_components/espressif__mdns/mdns.c:4396-4449 | In place on the search record, equal to the specification: addresses |
| SearchResults.SearchOnce.AddPtrRecord | managed_components/espressif__mdns/mdns.c:4454-4491 | In place on the search record, equal to the specification: instances |
| SearchResults.SearchOnce.AddSrvRecord | managed_components/espressif__mdns/mdns.c:4496-4533 | In place on the search record, equal to the specification: hosts |
| SearchResults.SearchOnce.AddTxtRecord | managed_components/espressif__mdns/mdns.c:4538-4582 | In place on the search record, equal to the specification: texts |
| SearchResults.SearchOnce.Receive | managed_components/espressif__mdns/mdns.c:3703-3945 | In place on the search record, equal to the specification: what the parser does with a record, keeping the invariant, to the results that `SearchMeaning` gives |
| SearchMeaning.InstancesFound | managed_components/espressif__mdns/mdns.c:3722-3760 | After any records a PTR search has, for each result with an instance, what the records say about it: names as in the first one, host and port of the first SRV record with a readable target on that link, the text of the first non-empty TXT record, the least TTL of those that count; with room, every instance heard of has a result |
| SearchMeaning.AddressGoesToHost | managed_components/espressif__mdns/mdns.c:4436-4449 | In a PTR or SRV search an address goes to the first result of its link and host, once, and lowers its TTL; every other result stays |
| SearchMeaning.AddressesFound | managed_components/espressif__mdns/mdns.c:4396-4436 | After any address records, which are all that it is given (`_mdns_search_find_from`), a search for a host's addresses has one result per link that sent a wanted address, with the host of the first, exactly the addresses received, and the least TTL; with room, every such link has one |
| SearchMeaning.ServersFound | managed_components/espressif__mdns/mdns.c:4496-4533 | After any SRV and address records, which are all that it is given, a SRV search has one result per link and host in any case, with the port of the first record, the names searched for, the addresses heard of and the least TTL; with room, every host has one |
| SearchMeaning.ServerGoesToHost | managed_components/espressif__mdns/mdns.c:4496-4533 | In any search but one for instances a SRV record lowers the TTL of the first result of its link and host, or, with room, becomes a new result in front with its host, port and TTL and the names searched for; nothing else changes |
| SearchMeaning.TextGoesToLink | managed_components/espressif__mdns/mdns.c:4538-4582 | A text that is not empty is given to the first result of its link, if that has none, and lowers its TTL, or becomes a new result in front; nothing else changes |
| SearchMeaning.TextsFound | managed_components/espressif__mdns/mdns.c:4538-4582 | After any TXT records, which are all that it is given (`_mdns_search_find_from`), a TXT search has one result per link, with the first non-empty text and its TTL; with room, every link that sent one has one |
| Bits.RotateByte | components/ssd1306/ssd1306.c:571-578 | The eight shifts give the byte with its bits reversed |
| Bits.MirrorBit | components/ssd1306/ssd1306.c:571-578 | Bit n of the reversed byte is bit 7-n |
| Bits.CopyBit | components/ssd1306/ssd1306.c:548-566 | Exactly one bit of the destination takes the source bit |
| Frames.SetPixelPixel | components/ssd1306/ssd1306.c:413-449 | Setting a pixel changes that pixel and no other, flipped or not |
| Frames.PixelByteFlipped | components/ssd1306/ssd1306.c:469-485 | On a flipped display `_ssd1306_pixel` sets just its bit if and only if the stored column reads the same upwards and downwards |
| Displays.PlotFlipped | components/ssd1306/ssd1306.c:469-485 | ... and then, and only then, that pixel of the shown frame changes and no other |
| Displays.PlotFlippedPixel | components/ssd1306/ssd1306.c:469-485 | In any case the pixel is set, the other seven of its column and page are turned upside down, and all else is kept |
| Displays.FlippedPlotMovesPixels | components/ssd1306/ssd1306.c:469-485 | With one pixel on at the bottom of a column, setting the fourth moves it to the top |
| Frames.UpPixel | components/ssd1306/ssd1306.c:298-349 | SCROLL_UP: pixel'(x,y) = pixel(x,(y+1) mod 8*pages) in the range, unchanged outside, for every buffer, page count and flip |
| Frames.DownPixel | components/ssd1306/ssd1306.c:351-398 | SCROLL_DOWN likewise from the line above |
| Frames.UpAndDown | components/ssd1306/ssd1306.c:298-398 | Each undoes the other |
| Frames.ScrollsRotate | components/ssd1306/ssd1306.c:298-398 | Any sequence of ups and downs is a rotation by the net count |
| Lines.WalkRounds | components/ssd1306/ssd1306.c:499-528 | The error term keeps the minor coordinate within one half of the exact one |
| Lines.LineEnds | components/ssd1306/ssd1306.c:488-529 | For all integer end points: max(dx,dy)+1 points, first and last the end points |
| Lines.LineTouches | components/ssd1306/ssd1306.c:488-529 | Neighbouring points touch |
| Lines.LineInBox | components/ssd1306/ssd1306.c:488-529 | Every point lies in the bounding box |
| Lines.LineIsExact | components/ssd1306/ssd1306.c:488-529 | For point k, twice the absolute value of k*dmin - across*dmaj is at most dmaj, across being its way in the minor coordinate |
| Lines.LineDistinct | components/ssd1306/ssd1306.c:488-529 | No point is plotted twice |
| Displays.LinePixels | components/ssd1306/ssd1306.c:469-529 | On screen with flip off the buffer differs on exactly the line's pixels |
| Displays.LogShowsLatest | components/ssd1306/ssd1306.c:210-238 | After any number of full lines page start+dir*k shows the k-th latest, and pages outside never change |
| Displays.TextShows | components/ssd1306/ssd1306.c:90-112 | On page p, left of 8 times the number of shown characters, pixel (x,y) is on if and only if bit y mod 8 of column x mod 8 of character x/8 in the font differs from invert, flipped or not; every other pixel is kept |
| Displays.LogLineShows | components/ssd1306/ssd1306.c:210-238 | After a new log line its page shows the text in that way, and every other page of the log the page before it, column by column up to the width |
| Displays.ScrollEnds | components/ssd1306/ssd1306.c:221-231 | The scroll loop comes to the start page if and only if start and end differ |
| Displays.ScrollStays | components/ssd1306/ssd1306.c:221-231 | Until then it copies from pages of the log; with start equal to end it goes down to page -1 |
| Displays.ScrollLeavesTheBuffer | components/ssd1306/ssd1306.c:193-231 | A log of page 2 alone: pages 1, 0 and -1, and never page 2 |
| Displays.Display.SetPoint | components/ssd1306/ssd1306.c:469-485 | In place on the frame buffer: one pixel |
| Displays.Display.DrawLine | components/ssd1306/ssd1306.c:488-529 | In place on the frame buffer: the line, both inclinations |
| Displays.Display.BlitPixel | components/ssd1306/ssd1306.c:430-447 | In place on the frame buffer: one pixel of a bitmap |
| Displays.Display.Bitmaps | components/ssd1306/ssd1306.c:413-465 | In place on the frame buffer: exactly the rectangle shows the bitmap, MSB first, xor invert, in the flipped view too, across pages; nothing for a width that is no multiple of 8 |
| Displays.Display.ScrollUp | components/ssd1306/ssd1306.c:298-349 | In place on the frame buffer: SCROLL_UP with the saved first page |
| Displays.Display.ScrollDown | components/ssd1306/ssd1306.c:351-398 | In place on the frame buffer: SCROLL_DOWN with the saved last page |
| Displays.Display.DisplayText | components/ssd1306/ssd1306.c:90-112 | In place on the frame buffer: up to 16 characters on a page; on the pixels shown: the font bits, inverted exactly if asked for, flipped or not, and every other pixel kept |
| Displays.Display.SoftwareScroll | components/ssd1306/ssd1306.c:193-207 | In place on the frame buffer: the range and direction of the log |
| Displays.Display.ShiftPages | components/ssd1306/ssd1306.c:221-231 | In place on the frame buffer: the loop, up to the start page or to page -1, turn by turn the specified source pages |
| Displays.Display.ScrollText | components/ssd1306/ssd1306.c:210-238 | In place on the frame buffer: pages copied towards the end and the text at the start, told on the pixels shown, inside the buffer if and only if start and end differ |
| TrustStore.SizesAgree | main/TrustPlatform.c:103-119 | Output size and block count agree, and are the least that hold the input |
| TrustStore.DecryptsEncrypted | main/TrustPlatform.c:130-175 | For any block functions with D(E(b)) = b the chained decryption undoes the chained encryption |
| TrustStore.EncryptedBlock | main/TrustPlatform.c:130-153 | Cipher block i is the block function on text block i xor the cipher block before it, the initial vector for i = 0 |
| TrustStore.StoredMeans | main/TrustPlatform.c:315-344 | A file is the data, zero-filled to whole blocks, encrypted from an initial vector of zeros |
| TrustStore.LastWriteWins | main/TrustPlatform.c:249-344 | A read returns the last write to that name, zero-filled to whole blocks, and its length, or an error for a missing file or a small buffer; writes to other names do not matter |
| TrustStore.ReadableUpTo65520 | main/TrustPlatform.c:249-344 | Written data can be read back if and only if they are no longer than 65520 bytes |
| TrustStore.UnreadableAt65521 | main/TrustPlatform.c:249-344 | 65521 bytes are written, and every read of them fails |
| TrustStore.Store.AesEncrypt | main/TrustPlatform.c:130-153 | In place on buffers and files: the encryption loop with zero padding |
| TrustStore.Store.AesDecrypt | main/TrustPlatform.c:155-175 | In place on buffers and files: the decryption loop |
| TrustStore.Store.TPwrite | main/TrustPlatform.c:315-344 | In place on buffers and files: the whole file is replaced, or nothing on failure |
| TrustStore.Store.TPread | main/TrustPlatform.c:249-299 | In place on buffers and files: status, data and length in each case |

## Left out

- Sockets, multicast membership and netif state: a ready bit per PCB; opening a PCB or a file may fail by a parameter.
- Allocation failure, freeing and address reuse: packets, answers and results are values with identities.
- The states PCB_DUP and PCB_INIT, which the source counts as probing, and duplicate interfaces: they need live addresses of other interfaces.
- The 32-bit clock beyond 2^31 ms, and the random bits of a probe's delay beyond their range, which are parameters.
- Which questions `mdns_parse_packet` answers and which collisions it acts on: replaced by every sequence of the operations it can cause.
- Instance names, host names, addresses and TXT contents of the responder's services: a service is its identity, its type and its host.
- Searches beyond their result lists: sending queries, time-outs, finishing and freeing.
- Reverse queries, delegated hosts as an operation of their own, debug printing, the console.
- Header fields and question sections of packets; the flush flags of scheduled answers.
- The heap layout behind the copies in `_mdns_init_pcb_probe_new_service`: sequences, without bounds to exceed.
- Txt.CreateResult: stops where the source would store an item beyond the counted arrays, because what follows depends on the heap.
- Txt.InStepFits: gives a sufficient condition only, because out of step the filling pass reads lengths from the middle of entries.
- Displays.Display.SetPoint: asks for a point on the screen, because `_ssd1306_pixel` writes outside its buffer otherwise; `DrawLine` likewise, while `Lines` characterises the points for all integer end points.
- Displays.Display.Bitmaps: asks for a rectangle on the screen and a bitmap that fills it, because the source checks neither.
- Displays.Display.ShiftPages: stops at page -1, because what the source copies from there on lies outside its buffer.
- Displays.LinePixels: speaks of a display that is not flipped; what a point does to a flipped one is in `Displays.PlotFlipped` and `Displays.PlotFlippedPixel`.
- NameWriter.AppendReturnsAdvance: asks for labels below 255 bytes, because the eight-bit count of a longer one wraps to nothing.
- ResponderRuns.ReachableFine: takes inputs whose lists of services have no repetition and whose probes and announcements are about something, as every caller in the source sees to.
- SCROLL_LEFT and SCROLL_RIGHT, text of triple size, fade-out, I2C and SPI transfers, delays, the contents of the font.
- The file name buffer of 30 bytes in `TPread` and `TPwrite`, key generation, AES itself and everything else of the platform.
- Linked lists are sequences in fields that the methods reassign: order is captured, aliasing of list nodes is not.
