# A verified model of four course systems: an RTSP video client, a replicated key-value store, a filtering HTTP proxy and an FTP client

This project models the core logic of four small networked programs and proves properties of that model in Dafny:

- **The RTSP/RTP streaming client** (`RTSPConnection.java`).
  - `Rtp` is the RTP fixed-header decoder, with Java's signed bytes and 32-bit promotion written out.
  - `RtspClient` holds the client's connection object.
    - The session fields (state, CSeq counter) form the class `RtspConnection`.
    - The playout fields (jitter buffer, buffering flag, pacing clocks) form the class `Playout`, which the connection owns.
    - The two classes together stand for the one Java object; they are split so that each method's frame stays small.
  - The Java timers are explicit events: one receive step, one playout tick, one firing of the frame timer.
  - Server replies, received datagrams and the wall clock are parameters.
- **The replicated key-value service** (Go).
  - `KvNode` is a storage node's batch request handler over its versioned map.
  - `LeaderNode` is the leader record: its text form, its ordering and the node-id list helpers.
  - `KvUtil` is the length-prefixed line framing over a buffered reader and writer.
  - `KvFrontEnd` is the front end's bookkeeping: client replies, the choice of replica nodes, the split of a departed node's keys, and the merge of the nodes' answers.
  - `GoText` holds the semantics of the few Go library text routines these call.
- **The filtering HTTP proxy** (C).
  - `ChunkQueue` is the linked queue of received blocks.
  - `HttpReader` is the buffered reader over the host socket and its scanners.
  - `HttpRequest` is the request-side pointer scanners.
  - `ProxyCache` is the hash-named response cache.
  - `BanFilter` is the host ban list.
  - `ProxyResponse` is the canned error responses and the send loop.
  - `ProxyFilter` covers request reading, the order of the checks in `process_request`, response body framing and which responses are cached.
  - Socket reads and writes are sequences of the results `recv` and `send` return. The file system is a value.
- **The FTP client's command layer** (Java).
  - `FtpParse` covers reply codes, PASV addresses and port numbers.
  - `FtpMessages` is the error message templates.
  - `FtpSession` covers `FTPConnection` and the shared error handling of `FTPUtil`. Each operation has a `...Step` function from the connection's fields before the call to its fields after it, and a class method proved to end as that function says.
  - `FtpCommands` covers `open`, `user`, `pass`, `pasv`, `close`, `stor`, `retr`, `list` and the name-to-command table.
  - The server is the sequence of lines it sends. What the network or the file system decides during a command is a parameter.

`Common` holds shared vocabulary: Option/Result, fixed-width two's-complement helpers and decimal text.

Where the code does something its authors evidently did not intend, the model keeps both forms: the code as written, with a lemma that exhibits the input, and the corrected form, which the rest of the model uses (see "## Findings").

## Model

| member | source | states |
|---|---|---|
| Rtp.Unsigned | CPSC317/cs317_a2_e0p8_u4o8/src/ubc/cs317/rtsp/client/net/RTSPConnection.java:466-468 | the octet a Java byte carries, in 0..255 and congruent to the byte modulo 256 |
| Rtp.MaskLowOctet | CPSC317/cs317_a2_e0p8_u4o8/src/ubc/cs317/rtsp/client/net/RTSPConnection.java:466-468 | `b & 0xff` is the byte's unsigned octet |
| Rtp.MaskShiftedOctet | CPSC317/cs317_a2_e0p8_u4o8/src/ubc/cs317/rtsp/client/net/RTSPConnection.java:466-468 | `b << k & (0xff << k)` for k = 8, 16, 24 is the unsigned octet times 2^k: the sign extension of a negative byte is masked away |
| Rtp.MarkerAsWrittenNeverSet | CPSC317/cs317_a2_e0p8_u4o8/src/ubc/cs317/rtsp/client/net/RTSPConnection.java:465 | `packet[1] >> 7 == 1` is false for every byte, since the signed shift yields 0 or -1 |
| Rtp.MarkerMeansTopBit | CPSC317/cs317_a2_e0p8_u4o8/src/ubc/cs317/rtsp/client/net/RTSPConnection.java:465 | the intended marker test holds exactly when the octet's top bit is set |
| Rtp.MarkerAsWrittenMissesSetBit | CPSC317/cs317_a2_e0p8_u4o8/src/ubc/cs317/rtsp/client/net/RTSPConnection.java:465 | the byte 0x80 (Java -128) carries the marker bit, yet the client's test reports it unset |
| Rtp.SequenceNumberIsBigEndian | CPSC317/cs317_a2_e0p8_u4o8/src/ubc/cs317/rtsp/client/net/RTSPConnection.java:466 | the sequence number is octets 2 and 3 read big-endian, narrowed to a signed short |
| Rtp.TimestampIsBigEndian | CPSC317/cs317_a2_e0p8_u4o8/src/ubc/cs317/rtsp/client/net/RTSPConnection.java:467-468 | the timestamp is octets 4 to 7 read big-endian, wrapped to a signed int |
| Rtp.LowBitsOfOctet | CPSC317/cs317_a2_e0p8_u4o8/src/ubc/cs317/rtsp/client/net/RTSPConnection.java:464-469 | the payload type is octet 1 modulo 128 and the CSRC count octet 0 modulo 16 |
| Rtp.ParseRtpPacket | CPSC317/cs317_a2_e0p8_u4o8/src/ubc/cs317/rtsp/client/net/RTSPConnection.java:463-473 | the decoded frame: payload type, marker always false, big-endian sequence number and timestamp in Java's signed widths, payload offset 12 + 4·CC, payload length = length − offset, the packet itself |
| Rtp.ParseRtpPacketIntended | CPSC317/cs317_a2_e0p8_u4o8/src/ubc/cs317/rtsp/client/net/RTSPConnection.java:463-473 | the same decoding with the marker read from the top bit of octet 1 |
| Rtp.ParseOctets | CPSC317/cs317_a2_e0p8_u4o8/src/ubc/cs317/rtsp/client/net/RTSPConnection.java:463-473 | a packet whose first eight octets carry given fields decodes to exactly those fields |
| Rtp.ParseEncodedHeader | CPSC317/cs317_a2_e0p8_u4o8/src/ubc/cs317/rtsp/client/net/RTSPConnection.java:463-473 | decoding an encoded RTP header followed by a payload recovers every header field and locates exactly that payload |
| Rtp.EncodedMarkerLost | CPSC317/cs317_a2_e0p8_u4o8/src/ubc/cs317/rtsp/client/net/RTSPConnection.java:465 | on a marked header the client's decoder agrees with the intended one in every field except the marker, which it drops |
| RtspClient.ReplyError | CPSC317/cs317_a2_e0p8_u4o8/src/ubc/cs317/rtsp/client/net/RTSPConnection.java:296-307 | an exchange raises nothing when accepted (code 200), the I/O or timeout error when it failed, and handleError's error for any other code |
| RtspClient.HandleError | CPSC317/cs317_a2_e0p8_u4o8/src/ubc/cs317/rtsp/client/net/RTSPConnection.java:496-505 | a reply code raises an error exactly when it is 400, 404 or 454 |
| RtspClient.RequestCarriesCSeq | CPSC317/cs317_a2_e0p8_u4o8/src/ubc/cs317/rtsp/client/net/RTSPConnection.java:291-293 | every request carries its CSeq on a line of its own |
| RtspClient.Insert | CPSC317/cs317_a2_e0p8_u4o8/src/ubc/cs317/rtsp/client/net/RTSPConnection.java:169 | `frameBuffer.offer` adds exactly the one frame: the buffer's multiset grows by it |
| RtspClient.InsertKeepsOrder | CPSC317/cs317_a2_e0p8_u4o8/src/ubc/cs317/rtsp/client/net/RTSPConnection.java:169 | offering a frame keeps the buffer ordered by sequence number (the priority queue's order) |
| RtspClient.InsertAllFrom | CPSC317/cs317_a2_e0p8_u4o8/src/ubc/cs317/rtsp/client/net/RTSPConnection.java:169 | offering a frame not below a bound keeps every frame at or above that bound |
| RtspClient.InsertKeepsGood | CPSC317/cs317_a2_e0p8_u4o8/src/ubc/cs317/rtsp/client/net/RTSPConnection.java:169 | offering a well-formed frame keeps the buffer ordered and well formed |
| RtspClient.DropStaleIsSuffix | CPSC317/cs317_a2_e0p8_u4o8/src/ubc/cs317/rtsp/client/net/RTSPConnection.java:242-247 | discarding stale frames removes a prefix of frames not later than the last shown one and stops at the first later frame |
| RtspClient.DropStaleSplits | CPSC317/cs317_a2_e0p8_u4o8/src/ubc/cs317/rtsp/client/net/RTSPConnection.java:242-247 | on an ordered buffer the discarded frames are exactly those not later than the last shown one |
| RtspClient.FrameToPlayIsEarliestFresh | CPSC317/cs317_a2_e0p8_u4o8/src/ubc/cs317/rtsp/client/net/RTSPConnection.java:239-250 | the frame to play is absent iff every buffered frame is stale, and otherwise is the earliest buffered frame later than the last shown one |
| RtspClient.BufferingHysteresis | CPSC317/cs317_a2_e0p8_u4o8/src/ubc/cs317/rtsp/client/net/RTSPConnection.java:200-208 | buffering stops at 50 frames or 3 consecutive losses, starts when the buffer is empty, and otherwise keeps its previous value |
| RtspClient.PlayoutDelayExample | CPSC317/cs317_a2_e0p8_u4o8/src/ubc/cs317/rtsp/client/net/RTSPConnection.java:222-223 | the delay is the media gap minus the wall-clock time elapsed since the reference, and 0 right after play |
| RtspClient.NextReferenceIgnoresNow | CPSC317/cs317_a2_e0p8_u4o8/src/ubc/cs317/rtsp/client/net/RTSPConnection.java:259-266 | once running, the wall-clock reference advances by exactly the media-time gap between frames, whenever the frame was shown |
| RtspClient.NextReferenceStarts | CPSC317/cs317_a2_e0p8_u4o8/src/ubc/cs317/rtsp/client/net/RTSPConnection.java:259-261 | the first frame after play sets the reference to the current time |
| RtspClient.Playout.constructor | CPSC317/cs317_a2_e0p8_u4o8/src/ubc/cs317/rtsp/client/net/RTSPConnection.java:53-59 | a fresh playout state: empty buffer, nothing played, no timers |
| RtspClient.Playout.Reset | CPSC317/cs317_a2_e0p8_u4o8/src/ubc/cs317/rtsp/client/net/RTSPConnection.java:330-334 | an accepted SETUP empties the buffer, starts buffering, stops playing and resets the last sequence number and loss count, nothing else |
| RtspClient.Playout.CancelTimers | CPSC317/cs317_a2_e0p8_u4o8/src/ubc/cs317/rtsp/client/net/RTSPConnection.java:389-390 | cancels the frame timer and the poll timer and changes nothing else |
| RtspClient.Playout.Start | CPSC317/cs317_a2_e0p8_u4o8/src/ubc/cs317/rtsp/client/net/RTSPConnection.java:119-123 | local playout starts: playing, reference cleared to −1, poll timer running |
| RtspClient.Playout.Halt | CPSC317/cs317_a2_e0p8_u4o8/src/ubc/cs317/rtsp/client/net/RTSPConnection.java:133-136 | local playout stops: not playing, poll timer cancelled |
| RtspClient.Playout.Clear | CPSC317/cs317_a2_e0p8_u4o8/src/ubc/cs317/rtsp/client/net/RTSPConnection.java:437-440 | both timers cancelled and the buffer emptied |
| RtspClient.Playout.ReceiveRtpPacket | CPSC317/cs317_a2_e0p8_u4o8/src/ubc/cs317/rtsp/client/net/RTSPConnection.java:161-179 | a datagram joins the buffer as its decoded frame and resets the loss count; a timeout increments the loss count; nothing else changes |
| RtspClient.Playout.FindFrameToPlay | CPSC317/cs317_a2_e0p8_u4o8/src/ubc/cs317/rtsp/client/net/RTSPConnection.java:239-250 | the buffer loses exactly its stale prefix and the result is its new head, later than the last shown frame |
| RtspClient.Playout.PlayFrame | CPSC317/cs317_a2_e0p8_u4o8/src/ubc/cs317/rtsp/client/net/RTSPConnection.java:253-271 | the frame is shown, the reference clock is moved by NextReference and the last timestamp and sequence number become the frame's |
| RtspClient.Playout.DeliverPending | CPSC317/cs317_a2_e0p8_u4o8/src/ubc/cs317/rtsp/client/net/RTSPConnection.java:225-230 | the scheduled frame is shown and the schedule cleared, with a strictly larger last sequence number |
| RtspClient.Playout.UpdateBuffering | CPSC317/cs317_a2_e0p8_u4o8/src/ubc/cs317/rtsp/client/net/RTSPConnection.java:198-209 | the buffering flag becomes BufferingAfter of the old flag, the size and the loss count; an empty buffer also clears the reference |
| RtspClient.Playout.ScheduleNext | CPSC317/cs317_a2_e0p8_u4o8/src/ubc/cs317/rtsp/client/net/RTSPConnection.java:213-235 | the stale prefix is dropped; a frame already scheduled or absent changes nothing more; otherwise the earliest fresh frame becomes tentative and is shown now or scheduled after its playout delay |
| RtspClient.Playout.Tick | CPSC317/cs317_a2_e0p8_u4o8/src/ubc/cs317/rtsp/client/net/RTSPConnection.java:196-236 | one poll: the buffering flag per the hysteresis; while buffering nothing is shown or dropped; otherwise the stale prefix is dropped; frames are shown in increasing sequence order |
| RtspClient.RtspConnection.constructor | CPSC317/cs317_a2_e0p8_u4o8/src/ubc/cs317/rtsp/client/net/RTSPConnection.java:78-92 | a new connection: INIT, CSeq 1, nothing sent, no RTP socket, an empty playout |
| RtspClient.RtspConnection.NextSequenceNumber | CPSC317/cs317_a2_e0p8_u4o8/src/ubc/cs317/rtsp/client/net/RTSPConnection.java:475-477 | returns the current CSeq and advances it by one, nothing else |
| RtspClient.RtspConnection.SendSetupRequest | CPSC317/cs317_a2_e0p8_u4o8/src/ubc/cs317/rtsp/client/net/RTSPConnection.java:314-348 | only in INIT: a failed RTP socket raises its error; otherwise one SETUP is sent with the next CSeq and the RTP port, and on 200 the client is READY with the reply's session, the video name and a reset playout; other codes raise handleError's error |
| RtspClient.RtspConnection.SendPlayRequest | CPSC317/cs317_a2_e0p8_u4o8/src/ubc/cs317/rtsp/client/net/RTSPConnection.java:353-373 | only in READY: one PLAY with the next CSeq and the session; on 200 the receive timer starts and the client is PLAYING |
| RtspClient.RtspConnection.SendPauseRequest | CPSC317/cs317_a2_e0p8_u4o8/src/ubc/cs317/rtsp/client/net/RTSPConnection.java:378-400 | only in PLAYING: one PAUSE; on 200 every timer stops and the client is READY; otherwise nothing in the playout changes |
| RtspClient.RtspConnection.CloseRtpConnection | CPSC317/cs317_a2_e0p8_u4o8/src/ubc/cs317/rtsp/client/net/RTSPConnection.java:436-442 | stops the receive timer, cancels both playout timers, empties the buffer and closes the RTP socket |
| RtspClient.RtspConnection.Setup | CPSC317/cs317_a2_e0p8_u4o8/src/ubc/cs317/rtsp/client/net/RTSPConnection.java:95-108 | from INIT: a failed RTP socket raises its error and sends nothing; a refused SETUP sends only SETUP and stays in INIT with its error; an accepted one sends SETUP and PLAY with consecutive CSeqs, resets the playout and ends PLAYING on a 200 to PLAY or READY otherwise, with PLAY's error; from READY only PLAY is sent, with the next CSeq and the session, and on 200 the client is PLAYING; from PLAYING nothing changes |
| RtspClient.RtspConnection.Play | CPSC317/cs317_a2_e0p8_u4o8/src/ubc/cs317/rtsp/client/net/RTSPConnection.java:117-124 | from READY one PLAY with the next CSeq and the session is sent, its error is raised and a 200 makes the client PLAYING; from any other state nothing is sent; once no error is raised, local playout starts iff a session exists and it is not already playing |
| RtspClient.RtspConnection.Pause | CPSC317/cs317_a2_e0p8_u4o8/src/ubc/cs317/rtsp/client/net/RTSPConnection.java:133-136 | only local playout stops; no request is sent |
| RtspClient.RtspConnection.Teardown | CPSC317/cs317_a2_e0p8_u4o8/src/ubc/cs317/rtsp/client/net/RTSPConnection.java:287-309 | nothing in INIT; from READY one TEARDOWN; from PLAYING a PAUSE whose error is raised, or else the TEARDOWN as well; on a 200 to TEARDOWN the client is back in INIT with the RTP connection closed and the buffer empty, otherwise it stays READY (after an accepted PAUSE, timers stopped) or PLAYING with the playout unchanged |
| RtspClient.RtspConnection.SendTeardownRequest | CPSC317/cs317_a2_e0p8_u4o8/src/ubc/cs317/rtsp/client/net/RTSPConnection.java:290-308 | one TEARDOWN with the next CSeq and the session; on 200 the client is in INIT with the RTP connection closed and the buffer empty; on any other reply the status, the timers and the playout are unchanged and handleError's error is raised |
| RtspClient.RtspConnection.ReceiveRtpPacket | CPSC317/cs317_a2_e0p8_u4o8/src/ubc/cs317/rtsp/client/net/RTSPConnection.java:161-179 | one run of the receive timer: the decoded frame joins the buffer, or a timeout counts as a loss |
| RtspClient.RtspConnection.Tick | CPSC317/cs317_a2_e0p8_u4o8/src/ubc/cs317/rtsp/client/net/RTSPConnection.java:196-236 | one run of the poll timer; frames are shown in increasing sequence order |
| RtspClient.RtspConnection.DeliverPending | CPSC317/cs317_a2_e0p8_u4o8/src/ubc/cs317/rtsp/client/net/RTSPConnection.java:225-230 | the frame timer shows exactly its scheduled frame |
| KvNode.Get | CPSC418/assignment4_f5l8_u4o8/kv-node.go:85 | a lookup finds an entry exactly when the key is stored |
| KvNode.Applied | CPSC418/assignment4_f5l8_u4o8/kv-node.go:83-115 | the store after a request: every key's entry is what that key's own argument makes of its old entry |
| KvNode.Responses | CPSC418/assignment4_f5l8_u4o8/kv-node.go:82-115 | the reply map holds exactly the keys whose argument kind replies, each with that argument's reply |
| KvNode.AppliedExtend | CPSC418/assignment4_f5l8_u4o8/kv-node.go:83-115 | applying one more key argument changes the store at that key only |
| KvNode.ResponsesExtend | CPSC418/assignment4_f5l8_u4o8/kv-node.go:83-115 | replying to one more key argument adds that key's reply only |
| KvNode.LoopStep | CPSC418/assignment4_f5l8_u4o8/kv-node.go:83-115 | one turn of the request loop keeps the store and the reply map equal to those of the keys already visited |
| KvNode.KvNode.constructor | CPSC418/assignment4_f5l8_u4o8/kv-node.go:63 | a node starts with an empty map |
| KvNode.KvNode.ApplyKey | CPSC418/assignment4_f5l8_u4o8/kv-node.go:84-114 | one key argument: the reply entry and the key's new entry, or its removal, are those `Step` gives for the old entry |
| KvNode.KvNode.HandleRequest | CPSC418/assignment4_f5l8_u4o8/kv-node.go:72-120 | a kill request is echoed with Kill set and leaves the map alone; any other request leaves the map as `Applied` and answers `Responses` under the same request id |
| KvNode.OnlyNamedKeys | CPSC418/assignment4_f5l8_u4o8/kv-node.go:83-115 | keys the request does not name keep their entry and get no reply |
| KvNode.GetSemantics | CPSC418/assignment4_f5l8_u4o8/kv-node.go:84-89 | GET replies with the stored entry, the zero entry if absent, and leaves the key present with that entry |
| KvNode.QueryIsReadOnly | CPSC418/assignment4_f5l8_u4o8/kv-node.go:90-91 | QUERY replies like GET but never changes the store, not even for an absent key |
| KvNode.PutSemantics | CPSC418/assignment4_f5l8_u4o8/kv-node.go:92-100 | PUT stores the new value and version exactly when the stored version (0 if absent) is older; the reply has an empty value and the version now stored |
| KvNode.TestPutSemantics | CPSC418/assignment4_f5l8_u4o8/kv-node.go:101-113 | TEST_PUT with a newer version takes that version, and the new value only if the stored value equals the test value; an older or equal version changes nothing; the reply is the entry now stored |
| KvNode.UnknownKindIgnored | CPSC418/assignment4_f5l8_u4o8/kv-node.go:83-115 | an argument of any other kind changes nothing and adds no reply |
| KvNode.VersionsNeverDecrease | CPSC418/assignment4_f5l8_u4o8/kv-node.go:83-115 | no stored version decreases and no key disappears |
| KvNode.PresentAfterWrite | CPSC418/assignment4_f5l8_u4o8/kv-node.go:84-113 | after a GET, PUT or TEST_PUT the key is present |
| KvNode.AppliedInParts | CPSC418/assignment4_f5l8_u4o8/kv-node.go:83 | the order of Go's map iteration does not matter: applying one part of the keys, then the rest, gives the same store as applying all |
| LeaderNode.UInt64ToStr | CPSC418/assignment3_u4o8_v6q8/node.go:151-153 | `FormatUint` writes a non-empty run of digits that `ParseUint` reads back as the same 64-bit number |
| LeaderNode.StringToLeaderVal | CPSC418/assignment3_u4o8_v6q8/node.go:194-204 | the parsed record's numbers are 64-bit; text with fewer than five fields, where Go indexes past the split, has no record |
| LeaderNode.LeaderFields | CPSC418/assignment3_u4o8_v6q8/node.go:190-195 | the printed record splits at spaces into its three numbers, its id and the split of its joined nodes |
| LeaderNode.StringToLeaderValRoundTrip | CPSC418/assignment3_u4o8_v6q8/node.go:190-204 | parsing a printed record gives it back when the id and nodes contain no space and the first node, if any, is non-empty |
| LeaderNode.NoNodesEndsInSpace | CPSC418/assignment3_u4o8_v6q8/node.go:191 | a record without nodes prints with a trailing space |
| LeaderNode.TooFewFields | CPSC418/assignment3_u4o8_v6q8/node.go:195-199 | text with fewer than five space-separated fields has no record |
| LeaderNode.EmptyFirstNodeDropsNodes | CPSC418/assignment3_u4o8_v6q8/node.go:199-200 | a record whose first node is empty parses back with no nodes at all |
| LeaderNode.CompareLeaders | CPSC418/assignment3_u4o8_v6q8/node.go:213-233 | the result is −1, 0 or 1, and 0 exactly when era, nonce and version all agree |
| LeaderNode.CompareIsLexicographic | CPSC418/assignment3_u4o8_v6q8/node.go:213-233 | `compareLeaders` is the lexicographic order on (era, −nonce, version) |
| LeaderNode.CompareAntisymmetric | CPSC418/assignment3_u4o8_v6q8/node.go:213-233 | swapping the arguments negates the result |
| LeaderNode.CompareReflexive | CPSC418/assignment3_u4o8_v6q8/node.go:213-233 | every record compares equal to itself |
| LeaderNode.CompareTransitive | CPSC418/assignment3_u4o8_v6q8/node.go:213-233 | newer-than is transitive |
| LeaderNode.CompareIgnoresIdAndNodes | CPSC418/assignment3_u4o8_v6q8/node.go:213-233 | the id and the nodes never affect the comparison |
| LeaderNode.HasId | CPSC418/assignment3_u4o8_v6q8/node.go:164-171 | the search succeeds exactly when the id is in the list |
| LeaderNode.RemoveFirstAt | CPSC418/assignment3_u4o8_v6q8/node.go:155-162 | removing the first occurrence at index i splices out exactly that element |
| LeaderNode.RemoveFirstAbsent | CPSC418/assignment3_u4o8_v6q8/node.go:161 | without an occurrence the list comes back unchanged |
| LeaderNode.RemoveFirstCounts | CPSC418/assignment3_u4o8_v6q8/node.go:155-162 | exactly one copy of the id goes when there is one; every other element keeps its count |
| LeaderNode.RemoveId | CPSC418/assignment3_u4o8_v6q8/node.go:155-162 | the returned slice is the list without its first occurrence of the id; on removal the caller's array is one shorter in use and its last slot keeps its old value; without one nothing changes |
| LeaderNode.IndexOfId | CPSC418/assignment3_u4o8_v6q8/node.go:156-160 | the loop stops at the first index holding the id, or at the length when there is none |
| LeaderNode.ShiftDown | CPSC418/assignment3_u4o8_v6q8/node.go:158 | `append(ids[:i], ids[i+1:]...)` moves the tail one place left over slot i in the same array and leaves the last slot as it was |
| KvUtil.UInt32ToStr | CPSC418/assignment4_f5l8_u4o8/util/util.go:26-28 | the decimal text of a 32-bit number is non-empty digits that `StrToUInt32` reads back as the number |
| KvUtil.StrToUInt32 | CPSC418/assignment4_f5l8_u4o8/util/util.go:30-33 | the result always fits in 32 bits, the parse error being dropped |
| KvUtil.StrToInt | CPSC418/assignment4_f5l8_u4o8/util/util.go:35-38 | the result always fits in Go's 64-bit int, the parse error being dropped |
| KvUtil.StrToIntNonNumeric | CPSC418/assignment4_f5l8_u4o8/util/util.go:35-38 | text that does not start with a digit (after an optional sign) converts to 0 |
| KvUtil.FirstIndexMeaning | CPSC418/assignment4_f5l8_u4o8/util/util.go:41 | the delimiter search stops at the first delimiter, and at the end only when there is none |
| KvUtil.ReadThroughMeaning | CPSC418/assignment4_f5l8_u4o8/util/util.go:41 | `ReadString` succeeds exactly when the delimiter is in the stream and returns the bytes through its first occurrence; otherwise it consumes everything |
| KvUtil.ReadSliceMeaning | CPSC418/assignment4_f5l8_u4o8/util/util.go:49 | `ReadSlice` succeeds exactly when the delimiter lies within the first 4096 bytes and returns the bytes through it; a full buffer consumes 4096 bytes and an early end of stream consumes the rest |
| KvUtil.GatherLine | CPSC418/assignment4_f5l8_u4o8/util/util.go:48-55 | one successful line of the gathering loop appends the line and continues after it |
| KvUtil.ByteReader.constructor | CPSC418/assignment4_f5l8_u4o8/util/util.go:40 | a reader at the start of its stream |
| KvUtil.ByteReader.Consume | CPSC418/assignment4_f5l8_u4o8/util/util.go:40-57 | the read position advances by what a read consumed and the stream is unchanged |
| KvUtil.ByteReader.ReadString | CPSC418/assignment4_f5l8_u4o8/util/util.go:41 | the result and the new position are those `ReadThrough` gives for the unread stream |
| KvUtil.ByteReader.ReadSlice | CPSC418/assignment4_f5l8_u4o8/util/util.go:49 | the result and the new position are those `ReadSliceOf` gives for the unread stream |
| KvUtil.KvReadLineBuffer | CPSC418/assignment4_f5l8_u4o8/util/util.go:40-57 | the result and the position after it are those `ReadFrame` gives: the length through the first space, then whole lines until that many bytes are gathered |
| KvUtil.ReadLinesUpTo | CPSC418/assignment4_f5l8_u4o8/util/util.go:48-55 | the gathering loop returns and consumes what `Gather` gives from nothing gathered |
| KvUtil.KvReadLineSlice | CPSC418/assignment4_f5l8_u4o8/util/util.go:59-70 | a frame without its last gathered byte, or the reader's error |
| KvUtil.KvReadLine | CPSC418/assignment4_f5l8_u4o8/util/util.go:72-83 | the same as text |
| KvUtil.ReadLineOf | CPSC418/assignment4_f5l8_u4o8/util/util.go:59-70 | consumes what the frame reader consumes and passes its errors on |
| KvUtil.ByteWriter.Write | CPSC418/assignment4_f5l8_u4o8/util/util.go:120 | the bytes are appended to the output |
| KvUtil.KvWriteLineSlice | CPSC418/assignment4_f5l8_u4o8/util/util.go:110-133 | the output grows by exactly the frame: decimal length, a space, the bytes, a newline |
| KvUtil.KvWriteLine | CPSC418/assignment4_f5l8_u4o8/util/util.go:85-108 | the output grows by the frame of the string's bytes |
| KvUtil.ReadFirstLine | CPSC418/assignment4_f5l8_u4o8/util/util.go:49 | `ReadSlice` returns a whole line that starts the unread stream and leaves what follows |
| KvUtil.GatherStep | CPSC418/assignment4_f5l8_u4o8/util/util.go:48-55 | one round that reads a line, then the rest of the loop |
| KvUtil.GatherLines | CPSC418/assignment4_f5l8_u4o8/util/util.go:48-55 | the loop reads given lines one by one when it is short of n bytes before the last of them and reaches n with it |
| KvUtil.ReadThroughPrefix | CPSC418/assignment4_f5l8_u4o8/util/util.go:41 | the first delimiter ends what `ReadString` returns |
| KvUtil.ReadLengthToken | CPSC418/assignment4_f5l8_u4o8/util/util.go:41 | `ReadString(' ')` on a frame returns its length token and the space and leaves the text and newline |
| KvUtil.LengthTokenValue | CPSC418/assignment4_f5l8_u4o8/util/util.go:45 | the length token converts back to the length |
| KvUtil.ReadLength | CPSC418/assignment4_f5l8_u4o8/util/util.go:41-45 | the length token of a frame is read back as the text's length |
| KvUtil.FrameRoundTrip | CPSC418/assignment4_f5l8_u4o8/util/util.go:40-70 | reading back a written frame gives its text and consumes exactly the frame when the text ends its last line within a 4096-byte buffer and that line is at least two bytes |
| KvUtil.TrailingNewlineLost | CPSC418/assignment4_f5l8_u4o8/util/util.go:48-67 | text that already ends in a newline comes back without it, one byte short of the frame, leaving the frame's newline unread |
| KvUtil.EmptyLineLeavesNewline | CPSC418/assignment4_f5l8_u4o8/util/util.go:45-67 | the empty text reads back as empty without reading any line, so the frame's newline stays in the stream |
| KvUtil.WritersAgree | CPSC418/assignment4_f5l8_u4o8/util/util.go:85-133 | converting bytes to a string and back gives the bytes, so `KvWriteLine` of `string(b)` writes the frame `KvWriteLineSlice` writes for b |
| GoText.ParseUint | CPSC418/assignment3_u4o8_v6q8/node.go:196-198 | `strconv.ParseUint` with its error dropped never exceeds the width's maximum |
| GoText.Atoi | CPSC418/assignment4_f5l8_u4o8/util/util.go:35-38 | `strconv.Atoi` always gives a 64-bit int |
| GoText.ScanPrefix | CPSC418/assignment3_u4o8_v6q8/node.go:196-198 | scanning the digits of a number in range from any prefix ends at the number's value |
| GoText.ParseFormatUint | CPSC418/assignment3_u4o8_v6q8/node.go:151-153 | `ParseUint` inverts `FormatUint` for every value of the width |
| GoText.AtoiItoa | CPSC418/assignment4_f5l8_u4o8/util/util.go:35-38 | `Atoi` inverts `Itoa` for every 64-bit int |
| GoText.ScanStopsAtJunk | CPSC418/assignment3_u4o8_v6q8/node.go:196-198 | a non-digit among the first 19 characters makes the parse give 0 |
| GoText.AtoiNonNumeric | CPSC418/assignment4_f5l8_u4o8/util/util.go:35-38 | `Atoi` gives 0 on a string with a non-digit early enough that no overflow can come first |
| GoText.Split | CPSC418/assignment3_u4o8_v6q8/node.go:195 | `strings.Split` always gives at least one piece |
| GoText.SplitAt | CPSC418/assignment3_u4o8_v6q8/node.go:195 | splitting at a separator splits the two sides independently |
| GoText.SplitWhole | CPSC418/assignment3_u4o8_v6q8/node.go:195 | a string without the separator is one piece |
| GoText.SplitJoin | CPSC418/assignment3_u4o8_v6q8/node.go:191-195 | `Split` inverts `Join` when no piece contains the separator |
| KvFrontEnd.ClientSeesStoredValue | CPSC418/assignment4_f5l8_u4o8/kv-front-end.go:93-99 | a node's reply to a GET, passed through `setResponse`, gives the client the value the node had stored, or "" when the key was absent |
| KvFrontEnd.UnavailableReported | CPSC418/assignment4_f5l8_u4o8/kv-front-end.go:93-99 | an unavailable reply is reported as "unavailable"; an available one yields a value exactly when it has an entry for the key |
| KvFrontEnd.GetNodesAsList | CPSC418/assignment4_f5l8_u4o8/kv-front-end.go:400-408 | a fresh slice as long as the node map, holding every node exactly once |
| KvFrontEnd.RandomizeNodes | CPSC418/assignment4_f5l8_u4o8/kv-front-end.go:410-418 | the shuffle leaves the slice a permutation of what it was |
| KvFrontEnd.PermutationDistinct | CPSC418/assignment4_f5l8_u4o8/kv-front-end.go:410-418 | a permutation of a list without repeats has no repeats |
| KvFrontEnd.LinkKeyMeaning | CPSC418/assignment4_f5l8_u4o8/kv-front-end.go:433-436 | afterwards a node lists the key exactly when it was chosen or listed it before; its other keys and fields are unchanged |
| KvFrontEnd.MergeReplicatingQuery | CPSC418/assignment4_f5l8_u4o8/kv-front-end.go:644-666 | the result is the merge of the replies taken; it stops early only right after the first reply count at which the merge reaches keysUpto keys |
| KvFrontEnd.MergeAllStep | CPSC418/assignment4_f5l8_u4o8/kv-front-end.go:646-659 | merging one more reply is one more round of the loop |
| KvFrontEnd.MergedArePuts | CPSC418/assignment4_f5l8_u4o8/kv-front-end.go:654 | every merged write is a PUT with an empty test value |
| KvFrontEnd.MergedKeys | CPSC418/assignment4_f5l8_u4o8/kv-front-end.go:648-654 | a key is merged exactly when some available reply has an entry for it |
| KvFrontEnd.MergeVersionIsMax | CPSC418/assignment4_f5l8_u4o8/kv-front-end.go:651-658 | no available reply offers a newer version of a key than the merged write |
| KvFrontEnd.MergeKeepsNewest | CPSC418/assignment4_f5l8_u4o8/kv-front-end.go:651-658 | the merged write for a key carries the version and value of the first reply that offers its highest version |
| KvFrontEnd.LinkKeyStep | CPSC418/assignment4_f5l8_u4o8/kv-front-end.go:433-436 | linking one more chosen node is one more map update |
| KvFrontEnd.PartitionLeft | CPSC418/assignment4_f5l8_u4o8/kv-front-end.go:570-585 | a key stays in the caller's set exactly when every node of the walk already holds it |
| KvFrontEnd.PartitionStep | CPSC418/assignment4_f5l8_u4o8/kv-front-end.go:570-585 | one step of the walk: the node takes the keys it lacks and the walk goes on with the rest |
| KvFrontEnd.PartitionEmpty | CPSC418/assignment4_f5l8_u4o8/kv-front-end.go:582-584 | once the set is empty the walk spawns nothing more |
| KvFrontEnd.PartitionSpawned | CPSC418/assignment4_f5l8_u4o8/kv-front-end.go:570-581 | each spawned replication goes to a node of the walk that lacks every one of its keys, all taken from the set and none left in it |
| KvFrontEnd.PartitionSpawnedApart | CPSC418/assignment4_f5l8_u4o8/kv-front-end.go:570-581 | no two spawned replications share a node or a key |
| KvFrontEnd.PartitionCovers | CPSC418/assignment4_f5l8_u4o8/kv-front-end.go:572-577 | a key taken from the set went to some spawned replication |
| KvFrontEnd.FrontEnd.constructor | CPSC418/assignment4_f5l8_u4o8/kv-front-end.go:394-397 | empty key and node metadata |
| KvFrontEnd.FrontEnd.ChooseNodes | CPSC418/assignment4_f5l8_u4o8/kv-front-end.go:420-428 | min(#nodes, replicationFactor) distinct known nodes |
| KvFrontEnd.FrontEnd.PrepareNodesForFirstReplication | CPSC418/assignment4_f5l8_u4o8/kv-front-end.go:420-438 | those nodes are recorded as the key's holders at version 0, the key is added to each of their key sets, and no other metadata changes |
| KvFrontEnd.FrontEnd.Walk | CPSC418/assignment4_f5l8_u4o8/kv-front-end.go:570-585 | the walk's result is `Partition` over the shuffled node list |
| KvFrontEnd.FrontEnd.PartitionAndReplicate | CPSC418/assignment4_f5l8_u4o8/kv-front-end.go:565-587 | the walk runs over an order holding every node once |
| KvFrontEnd.PartitionPlacesKeys | CPSC418/assignment4_f5l8_u4o8/kv-front-end.go:565-587 | whatever the shuffle: a key stays in the caller's set exactly when every node holds it; every other key goes to exactly one spawned replication, to a node lacking it; no two replications share a node |
| ChunkQueue.Chunk.constructor | CPSC317/CS317_a3_e0p8_u4o8/queue.c:20-25 | a node holding the given buffer and length, with no successor |
| ChunkQueue.Queue.constructor | CPSC317/CS317_a3_e0p8_u4o8/queue.c:7-11 | one sentinel node with no buffer, both first and last |
| ChunkQueue.Queue.Enqueue | CPSC317/CS317_a3_e0p8_u4o8/queue.c:14-17 | the node is linked after the last one and becomes the last; the buffers after the sentinel grow by exactly its buffer, in FIFO order |
| ChunkQueue.Queue.Pieces | CPSC317/CS317_a3_e0p8_u4o8/proxyFilter.c:354-355 | walking from the sentinel's successor to the end yields the enqueued buffers in order |
| ChunkQueue.Queue.FreeAsWritten | CPSC317/CS317_a3_e0p8_u4o8/queue.c:28-38 | as written, every node is released, then the queue header, but only the buffers of the nodes before the last: the buffers released, with the last node's added, are all the queue's buffers |
| ChunkQueue.Queue.Free | CPSC317/CS317_a3_e0p8_u4o8/queue.c:28-38 | corrected: every node is released together with its buffer, then the queue header |
| HttpReader.LineEnd | CPSC317/CS317_a3_e0p8_u4o8/parse.c:167-172 | the index where `readline` stops is a line feed, or the end of the input |
| HttpReader.LineEndFirst | CPSC317/CS317_a3_e0p8_u4o8/parse.c:168 | no line feed comes before that index |
| HttpReader.SpaceRun | CPSC317/CS317_a3_e0p8_u4o8/parse.c:175-179 | `readspaces` stops at a byte that is neither blank nor tab, or at the end |
| HttpReader.SpaceRunAll | CPSC317/CS317_a3_e0p8_u4o8/parse.c:154-156 | every byte it skips is a blank or a tab |
| HttpReader.MatchLen | CPSC317/CS317_a3_e0p8_u4o8/parse.c:182-189 | `try_match` consumes a common prefix of the input and the string and stops where they first differ |
| HttpReader.MatchLenUnique | CPSC317/CS317_a3_e0p8_u4o8/parse.c:182-189 | that length is the only one with this property |
| HttpReader.DigitRun | CPSC317/CS317_a3_e0p8_u4o8/parse.c:209-266 | the digit scans of `read_int` and `read_hex` stop after 31 digits or at the first non-digit |
| HttpReader.DigitRunAll | CPSC317/CS317_a3_e0p8_u4o8/parse.c:158-164 | every byte collected is a digit (a hex digit for `read_hex`) |
| HttpReader.CollectedRun | CPSC317/CS317_a3_e0p8_u4o8/parse.c:206-214 | whether or not a stale 0 byte was collected at the end of the input, the string read is exactly the digit run |
| HttpReader.HeaderRound | CPSC317/CS317_a3_e0p8_u4o8/parse.c:218-241 | one round of `read_content_length` never moves backwards in the input |
| HttpReader.LengthRound | CPSC317/CS317_a3_e0p8_u4o8/parse.c:227-233 | the value step after "Content-Length:" skips a line exactly when the name match did, at the same place |
| HttpReader.CodingRound | CPSC317/CS317_a3_e0p8_u4o8/parse.c:234-240 | the same for the value step after "Transfer-Encoding:" |
| HttpReader.EmptyRound | CPSC317/CS317_a3_e0p8_u4o8/parse.c:248-258 | one round of `read_to_empty_line` never moves backwards |
| HttpReader.FlushKeeps | CPSC317/CS317_a3_e0p8_u4o8/parse.c:104-116 | `flush` queues the rest of the block; before any earlier flush, the queue then holds every byte received |
| HttpReader.QueueKeeps | CPSC317/CS317_a3_e0p8_u4o8/parse.c:41-47 | `readbuf` queues the block it is about to overwrite |
| HttpReader.ReceiveKeeps | CPSC317/CS317_a3_e0p8_u4o8/parse.c:51-61 | receiving n > 0 bytes moves them from the stream into the block, in order |
| HttpReader.Reader.constructor | CPSC317/CS317_a3_e0p8_u4o8/parse.c:22-31 | a buffer of buflen bytes, status fine, nothing received, an empty queue |
| HttpReader.Reader.Covered | CPSC317/CS317_a3_e0p8_u4o8/parse.c:34-62 | every byte from the host is consumed, in the block or still unread; after an error nothing is left unread |
| HttpReader.Reader.Refill | CPSC317/CS317_a3_e0p8_u4o8/parse.c:34-62 | `readbuf` queues a non-empty block, receives the next one, and turns the status to an error exactly when the host has nothing more |
| HttpReader.Reader.QueueBlock | CPSC317/CS317_a3_e0p8_u4o8/parse.c:41-47 | the first step of `readbuf`: the current block joins the queue |
| HttpReader.Reader.Receive | CPSC317/CS317_a3_e0p8_u4o8/parse.c:51-61 | `recv` delivers the next bytes into the buffer, and nothing unread is lost |
| HttpReader.Reader.Fill | CPSC317/CS317_a3_e0p8_u4o8/parse.c:51 | the bytes `recv` delivers land at the start of the buffer, in order |
| HttpReader.Reader.Close | CPSC317/CS317_a3_e0p8_u4o8/parse.c:52-59 | `recv` returning 0 or less turns the status to an error and empties the block |
| HttpReader.Reader.Next | CPSC317/CS317_a3_e0p8_u4o8/parse.c:65-77 | `next` returns the first unread byte and consumes it, 0 after an error, and the stale first buffer byte when the input has just run out |
| HttpReader.Reader.Peek | CPSC317/CS317_a3_e0p8_u4o8/parse.c:80-91 | `peek` returns the same byte without consuming it |
| HttpReader.Reader.Read | CPSC317/CS317_a3_e0p8_u4o8/parse.c:94-101 | `read` returns the next num bytes; when the input runs out it returns the rest plus one stale byte, as `next` does |
| HttpReader.Reader.Flush | CPSC317/CS317_a3_e0p8_u4o8/parse.c:104-116 | the rest of the block is skipped and the whole block queued; after a first flush the queue followed by the unread input is everything the host sent |
| HttpReader.Reader.Advance | CPSC317/CS317_a3_e0p8_u4o8/parse.c:119-141 | `advance` skips num bytes, or everything with an error status when the input is shorter |
| HttpReader.Reader.AdvanceStep | CPSC317/CS317_a3_e0p8_u4o8/parse.c:120-139 | one round of its loop skips between 1 and the remaining count of bytes |
| HttpReader.Reader.Skip | CPSC317/CS317_a3_e0p8_u4o8/parse.c:135-136 | moving the cursor a bytes within the block consumes exactly the next a unread bytes and changes nothing else |
| HttpReader.Reader.Take | CPSC317/CS317_a3_e0p8_u4o8/parse.c:168-170 | `peek`, then `next` when the byte is in the class: the scanning loops' shared step |
| HttpReader.Reader.ReadLine | CPSC317/CS317_a3_e0p8_u4o8/parse.c:167-172 | consumes through the first line feed; the status turns to an error when there is none |
| HttpReader.Reader.ReadSpaces | CPSC317/CS317_a3_e0p8_u4o8/parse.c:175-179 | consumes exactly the leading blanks and tabs |
| HttpReader.Reader.TryMatch | CPSC317/CS317_a3_e0p8_u4o8/parse.c:182-189 | consumes the longest common prefix and returns its length, plus one for the stale byte when the input runs out mid-match |
| HttpReader.Reader.ReadRun | CPSC317/CS317_a3_e0p8_u4o8/parse.c:206-214 | `read_int` / `read_hex` consume up to 31 digits and return the value of that digit run |
| HttpReader.Reader.CollectRun | CPSC317/CS317_a3_e0p8_u4o8/parse.c:209-212 | the loop collects the digit run, with a trailing 0 byte when the input ran out on a stale digit |
| HttpReader.Reader.ReadCode | CPSC317/CS317_a3_e0p8_u4o8/parse.c:192-203 | a status line "HTTP/1.1" or "HTTP/1.0", one byte, blanks and three digits yields those digits; any other result is no code, or an input that ran out |
| HttpReader.Reader.MatchVersion | CPSC317/CS317_a3_e0p8_u4o8/parse.c:193-194 | the version prefix is matched exactly when the input starts with "HTTP/1.1" or "HTTP/1.0" |
| HttpReader.Reader.MatchPrefix | CPSC317/CS317_a3_e0p8_u4o8/parse.c:193 | a whole-string `try_match` succeeds exactly when the input starts with it |
| HttpReader.Reader.MatchMinor | CPSC317/CS317_a3_e0p8_u4o8/parse.c:194 | the minor version is "1" or else "0" |
| HttpReader.Reader.ReadCodeDigits | CPSC317/CS317_a3_e0p8_u4o8/parse.c:195-202 | one byte, blanks, then three bytes that must all be digits |
| HttpReader.Reader.SkipToCode | CPSC317/CS317_a3_e0p8_u4o8/parse.c:195-196 | the `next` and `readspaces` before the code |
| HttpReader.Reader.ReadContentLength | CPSC317/CS317_a3_e0p8_u4o8/parse.c:217-244 | the framing `HeaderScan` finds in the header lines, or an error status when the input ends first |
| HttpReader.Reader.HeaderLine | CPSC317/CS317_a3_e0p8_u4o8/parse.c:218-241 | one round of the header loop, as `HeaderRound` states it, a skipped line consumed by `readline` |
| HttpReader.Reader.HeaderRoundStep | CPSC317/CS317_a3_e0p8_u4o8/parse.c:219-240 | the round up to the `readline` of a skipped line |
| HttpReader.Reader.LengthLine | CPSC317/CS317_a3_e0p8_u4o8/parse.c:227-233 | a line starting with C: "Content-Length:" and its value, or a line to skip |
| HttpReader.Reader.CodingLine | CPSC317/CS317_a3_e0p8_u4o8/parse.c:234-240 | a line starting with T: "Transfer-Encoding:" and "chunked" or anything else, or a line to skip |
| HttpReader.Reader.MatchName | CPSC317/CS317_a3_e0p8_u4o8/parse.c:228-235 | a line-start name matched in full, in part or cut off by the end of input |
| HttpReader.Reader.LengthField | CPSC317/CS317_a3_e0p8_u4o8/parse.c:229-231 | blanks, then `read_int`'s value as the length |
| HttpReader.Reader.CodingField | CPSC317/CS317_a3_e0p8_u4o8/parse.c:236-238 | blanks, then chunked exactly when "chunked" follows |
| HttpReader.Reader.ReadToEmptyLine | CPSC317/CS317_a3_e0p8_u4o8/parse.c:247-260 | returns 0 after the first empty line (LF or CRLF) and -1 with an error status when the input ends first |
| HttpReader.Reader.EmptyLine | CPSC317/CS317_a3_e0p8_u4o8/parse.c:248-258 | one round of that loop, as `EmptyRound` states it |
| HttpRequest.Scan | CPSC317/CS317_a3_e0p8_u4o8/parse.c:277-290 | the three scanning helpers stop at a stopping character, and at the terminating NUL at the latest |
| HttpRequest.ScanFirst | CPSC317/CS317_a3_e0p8_u4o8/parse.c:278 | no character passed over stops the scan |
| HttpRequest.ScanOver | CPSC317/CS317_a3_e0p8_u4o8/parse.c:278 | a scan over a word without stops, followed by a stop, ends right after the word |
| HttpRequest.ReadTillSpace | CPSC317/CS317_a3_e0p8_u4o8/parse.c:277-280 | `read_till_space` returns the index of the first blank or NUL |
| HttpRequest.ReadTillNonSpace | CPSC317/CS317_a3_e0p8_u4o8/parse.c:282-285 | `read_till_non_space` returns the index of the first non-blank or NUL |
| HttpRequest.ReadToNewLine | CPSC317/CS317_a3_e0p8_u4o8/parse.c:287-290 | `read_to_new_line` returns one past the first line feed or NUL |
| HttpRequest.FindHost | CPSC317/CS317_a3_e0p8_u4o8/parse.c:302-315 | the corrected host-line search never reads past the terminator |
| HttpRequest.HostCheck | CPSC317/CS317_a3_e0p8_u4o8/parse.c:304-314 | the check at the start of a line never reads past the terminator |
| HttpRequest.SearchFound | CPSC317/CS317_a3_e0p8_u4o8/parse.c:302-314 | both searches, as written and corrected, only ever find a line that starts "Host:", after the request line |
| HttpRequest.BeforeValue | CPSC317/CS317_a3_e0p8_u4o8/parse.c:305-310 | the character before the host value is never the CR that `end` steps back over |
| HttpRequest.GetRequest | CPSC317/CS317_a3_e0p8_u4o8/parse.c:293-321 | IS_NOT_GET exactly when the request does not start "GET ", and the corrected parse never reads past the end |
| HttpRequest.GotNoNul | CPSC317/CS317_a3_e0p8_u4o8/parse.c:299-312 | the resource and host copied out of a request hold no NUL |
| HttpRequest.ReadHostValue | CPSC317/CS317_a3_e0p8_u4o8/parse.c:305-312 | copies the value of the "Host:" line, without leading blanks and without the CR LF |
| HttpRequest.CheckGet | CPSC317/CS317_a3_e0p8_u4o8/parse.c:293-321 | the corrected `check_GET_and_get_resource` computes `GetRequest` |
| HttpRequest.CheckGetAsWritten | CPSC317/CS317_a3_e0p8_u4o8/parse.c:293-321 | `check_GET_and_get_resource` as written computes `GetRequestAsWritten`, where reading past the NUL is a result |
| HttpRequest.LineStep | CPSC317/CS317_a3_e0p8_u4o8/parse.c:302-303 | a header line that does not end the headers is passed over by both searches |
| HttpRequest.SkipPlain | CPSC317/CS317_a3_e0p8_u4o8/parse.c:302-315 | any number of header lines other than "Host:" are passed over by both searches |
| HttpRequest.HostLineValue | CPSC317/CS317_a3_e0p8_u4o8/parse.c:305-312 | the line "Host: h" CR LF names h |
| HttpRequest.HostOutcome | CPSC317/CS317_a3_e0p8_u4o8/parse.c:304-313 | once the search reaches "Host: h", both versions return h with the resource |
| HttpRequest.GetRoundTrip | CPSC317/CS317_a3_e0p8_u4o8/parse.c:293-321 | a GET request whose headers include "Host: h" gives back its resource and h, as written and corrected |
| HttpRequest.NoHostRequest | CPSC317/CS317_a3_e0p8_u4o8/parse.c:302-316 | the corrected parse of a GET request without a "Host:" line before the CRLF empty line is NO_HOST |
| HttpRequest.CrlfEndReadsPast | CPSC317/CS317_a3_e0p8_u4o8/parse.c:302 | as written, a request without "Host:" that ends at its CRLF empty line is read past its NUL, where the correction returns NO_HOST |
| HttpRequest.AfterEmptyLine | CPSC317/CS317_a3_e0p8_u4o8/parse.c:324-333 | the index returned lies just past an LF or CRLF empty line |
| HttpRequest.ReadToAfterEmptyLine | CPSC317/CS317_a3_e0p8_u4o8/parse.c:324-333 | `read_to_after_empty_line` computes `AfterEmptyLine`, with NULL as None |
| HttpRequest.AfterLines | CPSC317/CS317_a3_e0p8_u4o8/parse.c:325-330 | header lines that are not empty are passed over up to the CRLF empty line after them |
| HttpRequest.AfterEmptyLineRoundTrip | CPSC317/CS317_a3_e0p8_u4o8/parse.c:324-333 | for header lines, a CRLF empty line and a body, the index returned is where the body starts |
| HttpRequest.DigitTail | CPSC317/CS317_a3_e0p8_u4o8/parse.c:341 | the run of digits that ends a string is no longer than the string |
| HttpRequest.DigitTailRun | CPSC317/CS317_a3_e0p8_u4o8/parse.c:341 | that run is all digits, with a non-digit or the start before it |
| HttpRequest.DigitTailAt | CPSC317/CS317_a3_e0p8_u4o8/parse.c:341 | any digit run with a non-digit or the start before it is that run |
| HttpRequest.PortStart | CPSC317/CS317_a3_e0p8_u4o8/parse.c:336-349 | a port is found only right after a ':' (an empty name before it included), and it is the non-empty run of digits that ends the host |
| HttpRequest.PortRoundTrip | CPSC317/CS317_a3_e0p8_u4o8/parse.c:336-349 | "name:port" splits into name and port |
| HttpRequest.PortBeforeStart | CPSC317/CS317_a3_e0p8_u4o8/parse.c:338-341 | as written, `get_port` reads before the string exactly when the host is all digits; otherwise it agrees with the correction |
| HttpRequest.StrLen | CPSC317/CS317_a3_e0p8_u4o8/parse.c:338 | the walk to the terminating NUL gives the length |
| HttpRequest.DigitsFrom | CPSC317/CS317_a3_e0p8_u4o8/parse.c:341 | the walk back over the trailing digits stops where they start |
| HttpRequest.GetPort | CPSC317/CS317_a3_e0p8_u4o8/parse.c:336-349 | corrected `get_port`: with a port, the ':' becomes NUL and nothing else changes; without one, nothing changes |
| HttpRequest.GetPortAsWritten | CPSC317/CS317_a3_e0p8_u4o8/parse.c:336-349 | `get_port` as written computes `PortStartAsWritten`, with the same writes |
| ProxyCache.Mix | CPSC317/CS317_a3_e0p8_u4o8/cache.c:18 | one hash step is n * 31 + x wrapped to 32 bits, and exactly that when it does not overflow |
| ProxyCache.Pad | CPSC317/CS317_a3_e0p8_u4o8/cache.c:28-30 | a tail of one to three bytes is kept and padded with zero bytes to a word |
| ProxyCache.Hash | CPSC317/CS317_a3_e0p8_u4o8/cache.c:15-31 | the hash is an `unsigned int` |
| ProxyCache.CacheName | CPSC317/CS317_a3_e0p8_u4o8/cache.c:33-35 | the name is "./cache/" and the hash in decimal, and fits the 32 bytes allocated |
| ProxyCache.HashWord | CPSC317/CS317_a3_e0p8_u4o8/cache.c:17-20 | each whole word of the resource is mixed into the hash of the words before it |
| ProxyCache.HashTail | CPSC317/CS317_a3_e0p8_u4o8/cache.c:24-31 | a tail of one to three bytes is mixed in padded with zeros |
| ProxyCache.OneWord | CPSC317/CS317_a3_e0p8_u4o8/cache.c:15-31 | a four-byte resource hashes to its word |
| ProxyCache.EmptyResourceName | CPSC317/CS317_a3_e0p8_u4o8/cache.c:15-36 | the empty resource is named "./cache/0" |
| ProxyCache.HashCollision | CPSC317/CS317_a3_e0p8_u4o8/cache.c:12-14 | two different resources get the same file name ("aaaaaaaa" and "baaaBaaa") |
| ProxyCache.ShiftCollision | CPSC317/CS317_a3_e0p8_u4o8/cache.c:18 | two-word resources collide when the first word is one more and the second 31 less |
| ProxyCache.HashName | CPSC317/CS317_a3_e0p8_u4o8/cache.c:15-37 | `hash` computes `CacheName` of the resource; the host is not read |
| ProxyCache.FoldWords | CPSC317/CS317_a3_e0p8_u4o8/cache.c:16-20 | the first loop mixes in every whole word before the terminator |
| ProxyCache.WordsHashStep | CPSC317/CS317_a3_e0p8_u4o8/cache.c:18 | four more bytes mix one more word into the hash |
| ProxyCache.FoldTail | CPSC317/CS317_a3_e0p8_u4o8/cache.c:22-31 | the tail loop and padding complete the hash of the whole resource |
| ProxyCache.MixWord | CPSC317/CS317_a3_e0p8_u4o8/cache.c:18 | the body of the first loop extends the hash of the words before `p` by the word at `p` |
| ProxyCache.CopyTail | CPSC317/CS317_a3_e0p8_u4o8/cache.c:22-27 | the copy loop stops at the terminator, having copied exactly the bytes after the whole words |
| ProxyCache.MixTail | CPSC317/CS317_a3_e0p8_u4o8/cache.c:28-31 | mixing in the padded tail gives the hash of the whole resource |
| ProxyCache.WordsLengthMod | CPSC317/CS317_a3_e0p8_u4o8/cache.c:17-20 | the whole words the first loop consumes are the length less its remainder modulo 4 |
| ProxyCache.CreateCacheFile | CPSC317/CS317_a3_e0p8_u4o8/cache.c:55-96 | the file is named after the resource's hash and holds the resource, CRLF and the queued chunks after the sentinel, in order |
| ProxyCache.FirstLine | CPSC317/CS317_a3_e0p8_u4o8/cache.c:113 | `getline` reads a prefix of the file with no LF before its end, ending in LF unless it is the whole file |
| ProxyCache.StrLen | CPSC317/CS317_a3_e0p8_u4o8/cache.c:114 | `strlen` stops at the first NUL, with no NUL before it |
| ProxyCache.LookUp | CPSC317/CS317_a3_e0p8_u4o8/cache.c:99-118 | a hit needs a file, and its body is a suffix of the file |
| ProxyCache.FirstLineOfFile | CPSC317/CS317_a3_e0p8_u4o8/cache.c:113-114 | the first line of a cache file is the resource and CRLF |
| ProxyCache.CacheRoundTrip | CPSC317/CS317_a3_e0p8_u4o8/cache.c:55-135 | a file written for a resource is a hit for it and returns the bytes written after the first line; for any other resource it is a conflict |
| ProxyCache.WrittenFileHits | CPSC317/CS317_a3_e0p8_u4o8/cache.c:68-76 | the file written from a queue is a hit for its resource and returns the queued chunks |
| ProxyCache.SendCached | CPSC317/CS317_a3_e0p8_u4o8/cache.c:99-135 | the lookup; on a hit the body is sent in blocks of 1 to BUFFER_LENGTH bytes whose concatenation is the body; otherwise nothing is sent |
| BanFilter.ToLower | CPSC317/CS317_a3_e0p8_u4o8/filter.c:13 | `tolower` maps 'A'..'Z' 32 code points up, keeps everything else, keeps NUL as NUL, and never returns an upper-case letter |
| BanFilter.LowerStr | CPSC317/CS317_a3_e0p8_u4o8/filter.c:10-17 | every character lowercased, the length kept |
| BanFilter.LowerIdempotent | CPSC317/CS317_a3_e0p8_u4o8/filter.c:38 | lowercasing twice is lowercasing once |
| BanFilter.StrLenOf | CPSC317/CS317_a3_e0p8_u4o8/filter.c:12 | the C string in a buffer ends at its first NUL |
| BanFilter.ToLowerStr | CPSC317/CS317_a3_e0p8_u4o8/filter.c:10-17 | `to_lower_str` lowercases the buffer up to its NUL, in place, and leaves the rest untouched |
| BanFilter.Fgets | CPSC317/CS317_a3_e0p8_u4o8/filter.c:30 | `fgets` with 103 bytes takes a non-empty prefix of at most 102 characters |
| BanFilter.FgetsUpTo | CPSC317/CS317_a3_e0p8_u4o8/filter.c:30 | that prefix has no LF before its end, and ends in LF when it stops before the limit and the text |
| BanFilter.Trim | CPSC317/CS317_a3_e0p8_u4o8/filter.c:31-37 | the corrected entry is a prefix of the C string, at most two characters shorter; the empty string stays empty |
| BanFilter.TrimAsWritten | CPSC317/CS317_a3_e0p8_u4o8/filter.c:31-36 | as written, the LF or CR test reads before the buffer exactly for a C string shorter than two bytes; otherwise it agrees with `Trim` |
| BanFilter.BlankLineReadsBefore | CPSC317/CS317_a3_e0p8_u4o8/filter.c:31-36 | a blank line "\\n", a last line of one character and a line starting with NUL make `tempstore + len - 2` point before the buffer |
| BanFilter.Entries | CPSC317/CS317_a3_e0p8_u4o8/filter.c:27-42 | one entry per `fgets` piece, cut at its first NUL, trimmed and lowercased; at most one per character of the file |
| BanFilter.CString | CPSC317/CS317_a3_e0p8_u4o8/filter.c:31 | `strlen` sees the prefix of the piece before its first NUL, which holds no NUL |
| BanFilter.CStringCut | CPSC317/CS317_a3_e0p8_u4o8/filter.c:31 | a NUL after a NUL-free u ends the C string right after u |
| BanFilter.StripCr | CPSC317/CS317_a3_e0p8_u4o8/filter.c:35-36 | a CR at the end of a line is cut off, and nothing else |
| BanFilter.EntriesOfLines | CPSC317/CS317_a3_e0p8_u4o8/filter.c:21-44 | a file of lines that fit and hold no NUL gives one entry per line, in order: the line lowercased, less a final CR |
| BanFilter.FgetsLine | CPSC317/CS317_a3_e0p8_u4o8/filter.c:30 | `fgets` takes a line that fits, with its LF |
| BanFilter.NulEndsEntry | CPSC317/CS317_a3_e0p8_u4o8/filter.c:30-38 | a NUL inside a line ends its entry: the line u NUL v gives the entry u lowercased, whatever v holds |
| BanFilter.FgetsUpToLine | CPSC317/CS317_a3_e0p8_u4o8/filter.c:30 | with room for the line and its LF, `fgets` stops right after the LF |
| BanFilter.Filter.constructor | CPSC317/CS317_a3_e0p8_u4o8/filter.c:6-7 | the ban list starts empty |
| BanFilter.Filter.ReadFilterList | CPSC317/CS317_a3_e0p8_u4o8/filter.c:21-44 | -1 and the list unchanged when the file cannot be opened; otherwise 0 and the list is `Entries` of the file, for any file text, NUL bytes included |
| BanFilter.Filter.ReadEntries | CPSC317/CS317_a3_e0p8_u4o8/filter.c:28-41 | the `feof`/`fgets` loop stores one entry per piece until the text is used up: the list is `Entries` of the text |
| BanFilter.Filter.StoreEntry | CPSC317/CS317_a3_e0p8_u4o8/filter.c:30-38 | the loop body: the piece is cut at its first NUL, trimmed and lowercased in place, giving `LowerStr(Trim(CString(piece)))` |
| BanFilter.Filter.FilterHost | CPSC317/CS317_a3_e0p8_u4o8/filter.c:48-66 | -1 exactly when the lowercased host contains some entry, 0 otherwise |
| BanFilter.EmptyEntryBansAll | CPSC317/CS317_a3_e0p8_u4o8/filter.c:59 | an empty entry, from a blank line, bans every host |
| BanFilter.BanIgnoresCase | CPSC317/CS317_a3_e0p8_u4o8/filter.c:51-59 | hosts that differ only in case are banned alike |
| BanFilter.LineBansHost | CPSC317/CS317_a3_e0p8_u4o8/filter.c:21-66 | a ban file line, in any case, bans every host whose name contains it, in any case |
| ProxyResponse.StatusTextShape | CPSC317/CS317_a3_e0p8_u4o8/response.c:9-22 | each canned text starts "HTTP/1.1 ", then its code, and ends with CRLF |
| ProxyResponse.CannedMatchesCode | CPSC317/CS317_a3_e0p8_u4o8/response.c:36-62 | exactly the codes 400, 403, 404, 405, 500, 502 and 504 have a response, whose status line carries that code and whose length is the whole text |
| ProxyResponse.BadRequestTruncated | CPSC317/CS317_a3_e0p8_u4o8/response.c:39 | as written, "400" is sent with CODE_404_LEN, two bytes short, so the CRLF that ends its header block is never sent |
| ProxyResponse.CannedAgree | CPSC317/CS317_a3_e0p8_u4o8/response.c:41-60 | every other code is sent as the corrected table sends it |
| ProxyResponse.ResSendMessageAsWritten | CPSC317/CS317_a3_e0p8_u4o8/response.c:25-33 | as written, every `send` offers the message from its start, so the wire holds the first k bytes of each call; -1 exactly when the last send failed |
| ProxyResponse.ResSendMessage | CPSC317/CS317_a3_e0p8_u4o8/response.c:25-33 | corrected, 0 means the whole message went out in order; -1, on a failed send, means a prefix of it did |
| ProxyResponse.PartialSendRepeats | CPSC317/CS317_a3_e0p8_u4o8/response.c:28 | sends taking 10 then 35 bytes of the 403 response put its first 10 bytes and then its first 35 on the wire, not the response |
| ProxyResponse.SendResponse | CPSC317/CS317_a3_e0p8_u4o8/response.c:36-62 | a recognised code returns a result and, on 0, the whole canned response is on the wire; any other code sends nothing and returns no value |
| ProxyFilter.CodeHasNoBody | CPSC317/CS317_a3_e0p8_u4o8/proxyFilter.c:403-408 | `code_has_no_body` returns 0 or -1 |
| ProxyFilter.NoBodyCodes | CPSC317/CS317_a3_e0p8_u4o8/proxyFilter.c:402-408 | for a three-digit code, 0 exactly for 1xx, 204 and 304 |
| ProxyFilter.ThreeDigitValue | CPSC317/CS317_a3_e0p8_u4o8/proxyFilter.c:403-406 | a three-digit code's value, digit by digit |
| ProxyFilter.ErrorResponse | CPSC317/CS317_a3_e0p8_u4o8/proxyFilter.c:382-400 | `handle_error_status` answers exactly the four listed statuses |
| ProxyFilter.ErrorResponsesCanned | CPSC317/CS317_a3_e0p8_u4o8/proxyFilter.c:382-400 | each of those answers is a code `send_response` knows, whose status line carries it, and different statuses get different answers |
| ProxyFilter.ReaderFailure | CPSC317/CS317_a3_e0p8_u4o8/proxyFilter.c:338-346 | a reader error passed to `handle_error_status` is the host's I/O error or its timeout |
| ProxyFilter.ReaderErrorCode | CPSC317/CS317_a3_e0p8_u4o8/proxyFilter.c:384-390 | the reply for a reader error is 504 for a timeout and 500 otherwise |
| ProxyFilter.Received | CPSC317/CS317_a3_e0p8_u4o8/proxyFilter.c:161-167 | one `recv` of at most len bytes takes at most that many, and none only when the client has closed or len is 0 |
| ProxyFilter.EndsHeadAsWritten | CPSC317/CS317_a3_e0p8_u4o8/proxyFilter.c:166 | as written, the test reads before the buffer exactly when the first bytes read are "\\n" or "\\r\\n"; otherwise it is the end-of-head test |
| ProxyFilter.EmptyFirstLineReadsBefore | CPSC317/CS317_a3_e0p8_u4o8/proxyFilter.c:166 | a client whose first piece is an empty line makes `buf - 2` or `buf - 3` point before the request buffer |
| ProxyFilter.ReadRequest | CPSC317/CS317_a3_e0p8_u4o8/proxyFilter.c:159-171 | `read_request` returns the bytes read and their number, as `RequestFrom` states |
| ProxyFilter.RequestBounds | CPSC317/CS317_a3_e0p8_u4o8/proxyFilter.c:159-171 | what is read is a prefix of the client's stream that fits the buffer, read until the client closes, the buffer fills or the head ends |
| ProxyFilter.RequestPrefix | CPSC317/CS317_a3_e0p8_u4o8/proxyFilter.c:163-165 | the bytes read are those before, then a prefix of the stream within the buffer |
| ProxyFilter.RequestStops | CPSC317/CS317_a3_e0p8_u4o8/proxyFilter.c:162-167 | reading stops at the close, at a full buffer, or after the end of the head |
| ProxyFilter.OnePieceRequest | CPSC317/CS317_a3_e0p8_u4o8/proxyFilter.c:159-171 | a request sent in one piece that fits is read exactly |
| ProxyFilter.EmptyLineInsidePiece | CPSC317/CS317_a3_e0p8_u4o8/proxyFilter.c:166 | the test looks only at the end of each piece: a piece holding the empty line and more is read on until the client closes |
| ProxyFilter.ProcessRequest | CPSC317/CS317_a3_e0p8_u4o8/proxyFilter.c:175-207 | for any request bytes, NUL included, `process_request` replies as `Served` states on the C string of the request; on a cache hit the blocks sent make up the cached body, and nothing is sent from the cache otherwise |
| ProxyFilter.NulEndsRequest | CPSC317/CS317_a3_e0p8_u4o8/proxyFilter.c:178 | the parser reads the request buffer as a C string: a request u NUL v is served as u alone, whatever v holds |
| ProxyFilter.NotGetRefused | CPSC317/CS317_a3_e0p8_u4o8/proxyFilter.c:178-181 | a request that is not a GET is answered 405, whatever the ban list and the cache hold |
| ProxyFilter.BannedRefused | CPSC317/CS317_a3_e0p8_u4o8/proxyFilter.c:184-187 | a banned host is answered 403 before the cache is looked at |
| ProxyFilter.CachedServed | CPSC317/CS317_a3_e0p8_u4o8/proxyFilter.c:189-200 | a cache file for the requested resource is served without contacting the host; one for another resource forwards the request |
| ProxyFilter.RepliedKnown | CPSC317/CS317_a3_e0p8_u4o8/proxyFilter.c:175-207 | every error reply `process_request` sends is a known response, and a failed fetch is answered 500 |
| ProxyFilter.LineRest | CPSC317/CS317_a3_e0p8_u4o8/parse.c:167-172 | `readline` consumes at least the LF |
| ProxyFilter.Skipped | CPSC317/CS317_a3_e0p8_u4o8/parse.c:119-141 | `advance` never adds input |
| ProxyFilter.HexSize | CPSC317/CS317_a3_e0p8_u4o8/parse.c:263-271 | `read_hex` never adds input |
| ProxyFilter.ChunkRound | CPSC317/CS317_a3_e0p8_u4o8/proxyFilter.c:318-321 | one round of the chunk loop consumes at least one byte |
| ProxyFilter.FrameOfNothing | CPSC317/CS317_a3_e0p8_u4o8/proxyFilter.c:287-343 | with no input left, every framing runs out |
| ProxyFilter.CrlfLine | CPSC317/CS317_a3_e0p8_u4o8/parse.c:167-172 | a CRLF line is read whole |
| ProxyFilter.HexSizeOf | CPSC317/CS317_a3_e0p8_u4o8/parse.c:263-271 | the size at the head of hex digits and another byte is their value |
| ProxyFilter.ChunkRoundDecodes | CPSC317/CS317_a3_e0p8_u4o8/proxyFilter.c:318-321 | a chunk in its encoding, followed by the next size, is read as one round, whatever its data holds |
| ProxyFilter.LastChunkEnds | CPSC317/CS317_a3_e0p8_u4o8/proxyFilter.c:317-322 | a last chunk of size 0 ends the loop right after its digit |
| ProxyFilter.ReadNoBody | CPSC317/CS317_a3_e0p8_u4o8/proxyFilter.c:298-302 | a response without a body is read to the empty line and flushed |
| ProxyFilter.ReadLengthBody | CPSC317/CS317_a3_e0p8_u4o8/proxyFilter.c:304-311 | after Content-Length: the rest of the headers, len bytes, then a flush |
| ProxyFilter.ReadHeadersEnd | CPSC317/CS317_a3_e0p8_u4o8/proxyFilter.c:307-308 | `readline` then `read_to_empty_line` consume what `HeadersEnd` says of the unread input, or turn the status to an error |
| ProxyFilter.ReadChunkData | CPSC317/CS317_a3_e0p8_u4o8/proxyFilter.c:318-319 | the rest of the size line and the chunk's data |
| ProxyFilter.ReadNextSize | CPSC317/CS317_a3_e0p8_u4o8/proxyFilter.c:320-321 | the line after the data and the next size, or an error status |
| ProxyFilter.ChunkStep | CPSC317/CS317_a3_e0p8_u4o8/proxyFilter.c:318-321 | one round of the chunk loop, as `ChunkRound` states |
| ProxyFilter.ReadChunks | CPSC317/CS317_a3_e0p8_u4o8/proxyFilter.c:317-322 | rounds until a size of 0, as `Chunks` states |
| ProxyFilter.ReadChunkedBody | CPSC317/CS317_a3_e0p8_u4o8/proxyFilter.c:312-325 | chunked coding: the headers, the chunks and the trailer, then a flush |
| ProxyFilter.ReadChunkedTail | CPSC317/CS317_a3_e0p8_u4o8/proxyFilter.c:316-323 | the chunk loop and the lines up to the empty line consume what `ChunkedTail` says, or turn the status to an error |
| ProxyFilter.ReadAllChunks | CPSC317/CS317_a3_e0p8_u4o8/proxyFilter.c:316-322 | the first size and the chunk loop consume what `AllChunks` says, or turn the status to an error |
| ProxyFilter.Drain | CPSC317/CS317_a3_e0p8_u4o8/proxyFilter.c:331-334 | flushing and peeking until the host closes receives everything it sent |
| ProxyFilter.ReadBody | CPSC317/CS317_a3_e0p8_u4o8/proxyFilter.c:298-343 | the response after its code is read as `Frame` states; unframed responses are read to the close |
| ProxyFilter.SendAll | CPSC317/CS317_a3_e0p8_u4o8/proxyFilter.c:352-357 | the queued blocks are sent in order, stopping after the first that fails; 0 exactly when all were delivered |
| ProxyFilter.Pipe | CPSC317/CS317_a3_e0p8_u4o8/proxyFilter.c:281-379 | 502 or the reader's error when there is no status code; the reader's error when the response runs out; nothing for an unframed one; otherwise the blocks received, a prefix of the host's bytes covering the whole response, are sent in order, and a "200" response is cached under its resource's name |
| FtpMessages.IndexOf | CPSC317/cs317_a1_e0p8_u4o8/ftp/ErrorMessages.java:30 | the position `replaceFirst` replaces is the first `%` |
| FtpMessages.Substitute | CPSC317/cs317_a1_e0p8_u4o8/ftp/ErrorMessages.java:28-31 | when the loop ends with a message, no `%` is left in it |
| FtpMessages.CreateMessage | CPSC317/cs317_a1_e0p8_u4o8/ftp/ErrorMessages.java:24-33 | `createMessage` looks up the template and fills it with the loop, giving `Message`: none for an unknown code (the null check) or too few arguments (the index out of bounds) |
| FtpMessages.FillDefined | CPSC317/cs317_a1_e0p8_u4o8/ftp/ErrorMessages.java:28-31 | a left-to-right fill succeeds exactly when there are as many arguments as placeholders |
| FtpMessages.FillPlain | CPSC317/cs317_a1_e0p8_u4o8/ftp/ErrorMessages.java:29-30 | text without placeholders is copied ahead of the rest |
| FtpMessages.FillAtHole | CPSC317/cs317_a1_e0p8_u4o8/ftp/ErrorMessages.java:30 | the first placeholder takes the first argument |
| FtpMessages.SubstituteIsFill | CPSC317/cs317_a1_e0p8_u4o8/ftp/ErrorMessages.java:28-31 | with arguments free of `%`, the replace-first loop gives the left-to-right fill |
| FtpMessages.MessageNeedsEveryArgument | CPSC317/cs317_a1_e0p8_u4o8/ftp/ErrorMessages.java:24-33 | with arguments free of `%`, a message is made exactly when there are enough arguments |
| FtpMessages.PlaceholdersAppend | CPSC317/cs317_a1_e0p8_u4o8/ftp/ErrorMessages.java:29 | the placeholders of a joined text are those of its parts |
| FtpMessages.PlaceholderCounts | CPSC317/cs317_a1_e0p8_u4o8/ftp/ErrorMessages.java:11-21 | codes 910 and 999 take one argument, 920 and 930 two, all others none |
| FtpMessages.TemplateStartsWithCode | CPSC317/cs317_a1_e0p8_u4o8/ftp/ErrorMessages.java:11-21 | every template opens with its own code, in 900..999, and a space |
| FtpMessages.SubstituteFirst | CPSC317/cs317_a1_e0p8_u4o8/ftp/ErrorMessages.java:30 | one step of the loop puts the next argument in place of the first `%` |
| FtpMessages.SubstituteTwo | CPSC317/cs317_a1_e0p8_u4o8/ftp/ErrorMessages.java:28-31 | a template with two placeholders and two arguments free of `%` is filled in order |
| FtpMessages.ConnectionFailureMessage | CPSC317/cs317_a1_e0p8_u4o8/ftp/ErrorMessages.java:16 | the 920 message reads "920 Control connection to" host "on port" port "failed to open." |
| FtpMessages.PercentArgumentTakesNext | CPSC317/cs317_a1_e0p8_u4o8/ftp/ErrorMessages.java:29-30 | a `%` inside an argument is a placeholder for the next argument |
| FtpMessages.PercentArgumentUnfilled | CPSC317/cs317_a1_e0p8_u4o8/ftp/ErrorMessages.java:29-30 | a `%` inside the last argument has no argument left, so no message is made |
| FtpMessages.PercentInArgumentSubstitutedAgain | CPSC317/cs317_a1_e0p8_u4o8/ftp/ErrorMessages.java:21-30 | for 999, an argument u + "%" followed by x, neither holding `%`, gives "999 Processing error. " + u + x: the `%` of the first argument takes the second |
| FtpMessages.PercentInLastArgumentFails | CPSC317/cs317_a1_e0p8_u4o8/ftp/ErrorMessages.java:21-30 | for 999, a single argument u + "%" (u without `%`) makes no message: its `%` has no argument left to take |
| FtpParse.TrimStart | CPSC317/cs317_a1_e0p8_u4o8/ftp/commands/Parse.java:12 | `trim` keeps a suffix that starts with a non-blank |
| FtpParse.TrimEnd | CPSC317/cs317_a1_e0p8_u4o8/ftp/commands/Parse.java:12 | `trim` keeps a prefix that ends with a non-blank |
| FtpParse.TrimStartDropsBlanks | CPSC317/cs317_a1_e0p8_u4o8/ftp/commands/Parse.java:12 | every leading character `trim` drops is blank |
| FtpParse.TrimEndDropsBlanks | CPSC317/cs317_a1_e0p8_u4o8/ftp/commands/Parse.java:12 | every trailing character `trim` drops is blank |
| FtpParse.ReadCode | CPSC317/cs317_a1_e0p8_u4o8/ftp/commands/Parse.java:11-13 | `readCode` is defined exactly when the trimmed reply has three characters, and is its first three |
| FtpParse.ReplyLineCode | CPSC317/cs317_a1_e0p8_u4o8/ftp/commands/Parse.java:11-13 | a reply line that starts with its code yields that code |
| FtpParse.TrimStartSkipsBlanks | CPSC317/cs317_a1_e0p8_u4o8/ftp/commands/Parse.java:12 | leading blanks never change the trimmed text |
| FtpParse.ReadCodeSkipsLeadingBlanks | CPSC317/cs317_a1_e0p8_u4o8/ftp/commands/Parse.java:11-13 | leading blanks never change the code |
| FtpParse.DigitRun | CPSC317/cs317_a1_e0p8_u4o8/ftp/commands/Parse.java:15 | the ASCII digit run at the front ends at a non-digit or at the end |
| FtpParse.FieldsSound | CPSC317/cs317_a1_e0p8_u4o8/ftp/commands/Parse.java:15 | a match of `(\\d{1,3},){k}\\d{1,3}` holds k + 1 numbers and lies inside the text |
| FtpParse.FindSound | CPSC317/cs317_a1_e0p8_u4o8/ftp/commands/Parse.java:18 | what `find` returns is a match of the pattern inside the text |
| FtpParse.FoundShape | CPSC317/cs317_a1_e0p8_u4o8/ftp/commands/Parse.java:18-20 | a match found splits into six numbers |
| FtpParse.ShortTextHasNoAddress | CPSC317/cs317_a1_e0p8_u4o8/ftp/commands/Parse.java:15-18 | text shorter than eleven characters holds no match |
| FtpParse.FindLeftmost | CPSC317/cs317_a1_e0p8_u4o8/ftp/commands/Parse.java:18 | `find` returns the leftmost match |
| FtpParse.FindFirst | CPSC317/cs317_a1_e0p8_u4o8/ftp/commands/Parse.java:18 | a match with none before it is what `find` returns |
| FtpParse.PortOf | CPSC317/cs317_a1_e0p8_u4o8/ftp/commands/Parse.java:40 | p1 * 256 + p2 of two octets is a port, 0..65535 |
| FtpParse.HostPortInRange | CPSC317/cs317_a1_e0p8_u4o8/ftp/commands/Parse.java:16-45 | `getHostPort` returns a port in range, or fails with the 999 "no host/port" message |
| FtpParse.InOctetRange | CPSC317/cs317_a1_e0p8_u4o8/ftp/commands/Parse.java:24-31 | the inner loop says whether every number is at most 255 |
| FtpParse.BuildHost | CPSC317/cs317_a1_e0p8_u4o8/ftp/commands/Parse.java:34-38 | the host is the first four numbers joined by dots |
| FtpParse.GetHostPort | CPSC317/cs317_a1_e0p8_u4o8/ftp/commands/Parse.java:16-45 | the loops compute `HostPortIn` |
| FtpParse.FieldsOfGroup | CPSC317/cs317_a1_e0p8_u4o8/ftp/commands/Parse.java:15 | numbers of one to three digits written with commas, followed by a non-digit, match as exactly those numbers |
| FtpParse.FindAfterPrefix | CPSC317/cs317_a1_e0p8_u4o8/ftp/commands/Parse.java:17-18 | after text that holds no match, the written group is what `find` returns |
| FtpParse.HostPortInNone | CPSC317/cs317_a1_e0p8_u4o8/ftp/commands/Parse.java:44 | no match: the "no host/port" failure |
| FtpParse.HostPortInTakes | CPSC317/cs317_a1_e0p8_u4o8/ftp/commands/Parse.java:32-42 | a first match of octets is the address |
| FtpParse.HostPortInSkips | CPSC317/cs317_a1_e0p8_u4o8/ftp/commands/Parse.java:32 | a first match with a number above 255 is skipped and the search resumes after it |
| FtpParse.ValidGroupTaken | CPSC317/cs317_a1_e0p8_u4o8/ftp/commands/Parse.java:16-43 | a valid group after text without a match is the address returned |
| FtpParse.InvalidGroupSkipped | CPSC317/cs317_a1_e0p8_u4o8/ftp/commands/Parse.java:16-32 | an invalid group is skipped: the result is that of the text after it |
| FtpParse.WrittenOctets | CPSC317/cs317_a1_e0p8_u4o8/ftp/commands/Parse.java:27 | six written numbers are accepted exactly when each is below 256 |
| FtpParse.GroupDecodes | CPSC317/cs317_a1_e0p8_u4o8/ftp/commands/Parse.java:16-43 | six valid numbers after text without a match give host `a.b.c.d` and port p1 * 256 + p2 |
| FtpParse.PasvReplyDecodes | CPSC317/cs317_a1_e0p8_u4o8/ftp/commands/Parse.java:16-43 | the PASV reply "(h1,h2,h3,h4,p1,p2)" decodes to host h1.h2.h3.h4 and port p1 * 256 + p2 |
| FtpParse.OverlappingGroupMissed | CPSC317/cs317_a1_e0p8_u4o8/ftp/commands/Parse.java:18-32 | the search resumes after a skipped match, so a valid group overlapping it (in "256,1,2,3,4,5,6)") is missed |
| FtpParse.RejectedGroupLeavesNothing | CPSC317/cs317_a1_e0p8_u4o8/ftp/commands/Parse.java:32-44 | a rejected group with too little text after it leaves no address |
| FtpParse.ParseInt | CPSC317/cs317_a1_e0p8_u4o8/ftp/commands/Open.java:22 | `Integer.parseInt` on ASCII text succeeds only on non-empty text, with a 32-bit value |
| FtpParse.ParseIntOfDecimal | CPSC317/cs317_a1_e0p8_u4o8/ftp/commands/Open.java:22 | decimal text of a value in range parses back to that value |
| FtpParse.ParseIntRejects | CPSC317/cs317_a1_e0p8_u4o8/ftp/commands/Open.java:22-26 | text with a character other than a leading sign or a digit throws `NumberFormatException` |
| FtpSession.ScanLines | CPSC317/cs317_a1_e0p8_u4o8/ftp/commands/FTPConnection.java:149-152 | the reply loop reads no more lines than there are, and at least one when it ends properly |
| FtpSession.FirstFailure | CPSC317/cs317_a1_e0p8_u4o8/ftp/commands/FTPUtil.java:10-38 | checks made one after another pass exactly when every one of them passes |
| FtpSession.FtpConnection.constructor | CPSC317/cs317_a1_e0p8_u4o8/ftp/commands/FTPConnection.java:12-19 | a new connection: no socket, not logged in, no address, no data connection, no last reply |
| FtpSession.FtpConnection.SetConnection | CPSC317/cs317_a1_e0p8_u4o8/ftp/commands/FTPConnection.java:97-101 | the socket is set and its reader delivers what the server sends; nothing else changes |
| FtpSession.FtpConnection.CloseDataConnection | CPSC317/cs317_a1_e0p8_u4o8/ftp/commands/FTPConnection.java:83-93 | `closeDataConnection` behaves as `CloseDataStep`: the data connection is gone, with the 999 message when closing it failed |
| FtpSession.FtpConnection.Close | CPSC317/cs317_a1_e0p8_u4o8/ftp/commands/FTPConnection.java:103-122 | `close` behaves as `CloseStep`, whose effect `CloseEndsSession` states |
| FtpSession.FtpConnection.EstablishDataConnection | CPSC317/cs317_a1_e0p8_u4o8/ftp/commands/FTPConnection.java:61-77 | `establishDataConnection` behaves as `EstablishDataStep`: the pending address is used up, and a failure to connect throws 930 |
| FtpSession.FtpConnection.SendCommand | CPSC317/cs317_a1_e0p8_u4o8/ftp/commands/FTPConnection.java:126-131 | `sendCommand` behaves as `SendStep`: the command is sent, or an I/O error is thrown |
| FtpSession.FtpConnection.ReadReplyAndReturnFirstLine | CPSC317/cs317_a1_e0p8_u4o8/ftp/commands/FTPConnection.java:133-155 | `readReplyAndReturnFirstLine` behaves as `ReadReplyStep`, whose outcomes the lemmas below state |
| FtpSession.ReadToLastLine | CPSC317/cs317_a1_e0p8_u4o8/ftp/commands/FTPConnection.java:149-152 | the loop computes `ScanLines` |
| FtpSession.ScanPastLine | CPSC317/cs317_a1_e0p8_u4o8/ftp/commands/FTPConnection.java:149-151 | a line that does not end the reply is read past |
| FtpSession.ScanEndsAtFirstLast | CPSC317/cs317_a1_e0p8_u4o8/ftp/commands/FTPConnection.java:149-152 | the loop ends after n lines exactly when line n ends the reply ("code" then a space, section 4.2 of RFC 959) and none before it does |
| FtpSession.ReplyReadToLastLine | CPSC317/cs317_a1_e0p8_u4o8/ftp/commands/FTPConnection.java:133-155 | a reply of n lines is read to its end; the first line is returned and kept as the last reply |
| FtpSession.OneLineReply | CPSC317/cs317_a1_e0p8_u4o8/ftp/commands/FTPConnection.java:133-155 | a one-line reply "code text" is read alone and returned |
| FtpSession.LastLineOfReply | CPSC317/cs317_a1_e0p8_u4o8/ftp/commands/FTPConnection.java:148-149 | "code text" has that code and ends its reply |
| FtpSession.BareCodeLineThrows | CPSC317/cs317_a1_e0p8_u4o8/ftp/commands/FTPConnection.java:149 | a reply line of just the three-digit code makes `charAt(3)` throw |
| FtpSession.ReplyBrokenAt | CPSC317/cs317_a1_e0p8_u4o8/ftp/commands/FTPConnection.java:149-152 | when the loop throws after n lines, the input after those lines is left |
| FtpSession.UnfinishedReplyThrows | CPSC317/cs317_a1_e0p8_u4o8/ftp/commands/FTPConnection.java:150-151 | a server that closes inside a multi-line reply makes the loop throw on the null line |
| FtpSession.ConnectionIoError | CPSC317/cs317_a1_e0p8_u4o8/ftp/commands/FTPUtil.java:52-55 | `connectionIOError` behaves as `ConnectionIoErrorStep` |
| FtpSession.DataConnectionIoError | CPSC317/cs317_a1_e0p8_u4o8/ftp/commands/FTPUtil.java:57-60 | `dataConnectionIOError` behaves as `DataConnectionIoErrorStep` |
| FtpSession.DrainReply | CPSC317/cs317_a1_e0p8_u4o8/ftp/commands/FTPUtil.java:68-89 | the shared `try`/`catch` of the two file-error handlers behaves as `DrainReplyStep` |
| FtpSession.HandleLocalFileAccessError | CPSC317/cs317_a1_e0p8_u4o8/ftp/commands/FTPUtil.java:66-78 | `handleLocalFileAccessError` behaves as `LocalFileErrorStep` |
| FtpSession.HandleDataIoException | CPSC317/cs317_a1_e0p8_u4o8/ftp/commands/FTPUtil.java:80-93 | `handleDataIOException` behaves as `DataIoExceptionStep` |
| FtpSession.HandleCommonErrorCode | CPSC317/cs317_a1_e0p8_u4o8/ftp/commands/FTPUtil.java:95-117 | `handleCommonErrorCode` behaves as `CommonErrorStep` |
| FtpSession.CloseEndsSession | CPSC317/cs317_a1_e0p8_u4o8/ftp/commands/FTPConnection.java:103-122 | closing always ends the session: no socket, logged out, no address, no data connection; it throws exactly when there is no socket (the null pointer) or closing it fails |
| FtpSession.ConnectionIoErrorEndsSession | CPSC317/cs317_a1_e0p8_u4o8/ftp/commands/FTPUtil.java:52-55 | a control connection error ends the session and throws 925, or the 999 of a failed close |
| FtpSession.ReadReplyKeepsData | CPSC317/cs317_a1_e0p8_u4o8/ftp/commands/FTPConnection.java:133-155 | reading a reply never opens a data connection: it keeps it, or ends the session |
| FtpSession.DrainClearsData | CPSC317/cs317_a1_e0p8_u4o8/ftp/commands/FTPUtil.java:68-74 | after the handlers' `try` block there is no data connection |
| FtpSession.LocalFileErrorIs910 | CPSC317/cs317_a1_e0p8_u4o8/ftp/commands/FTPUtil.java:66-78 | `handleLocalFileAccessError` always ends with 910 for its file, whatever the `try` threw, with no data connection left |
| FtpSession.DataIoExceptionIs935 | CPSC317/cs317_a1_e0p8_u4o8/ftp/commands/FTPUtil.java:80-93 | `handleDataIOException` always ends with 935, whatever the `try` threw |
| FtpSession.CommonCodes | CPSC317/cs317_a1_e0p8_u4o8/ftp/commands/FTPUtil.java:95-117 | exactly seven codes are acted on; 421 is a connection error and 503 throws 903; any other code changes nothing |
| FtpCommands.OpenPort | CPSC317/cs317_a1_e0p8_u4o8/ftp/commands/Open.java:15-27 | the port is in 0..65535, or the command fails with 902 |
| FtpCommands.OpenPortOfDecimal | CPSC317/cs317_a1_e0p8_u4o8/ftp/commands/Open.java:22 | a port written in decimal is the port used; with none given, 21 |
| FtpCommands.OpenPortNotANumber | CPSC317/cs317_a1_e0p8_u4o8/ftp/commands/Open.java:22-27 | a port with a character other than a leading sign or a digit is refused with 902 |
| FtpCommands.Open | CPSC317/cs317_a1_e0p8_u4o8/ftp/commands/Open.java:13-49 | `open` behaves as `OpenStep` |
| FtpCommands.OpenGreeted | CPSC317/cs317_a1_e0p8_u4o8/ftp/commands/Open.java:29-41 | on a server that greets with one line, the session is connected and the greeting read; a 421 or 120 greeting throws 920 for the host and port |
| FtpCommands.OpenSilentServer | CPSC317/cs317_a1_e0p8_u4o8/ftp/commands/Open.java:33-48 | a server that sends nothing makes `open` throw 920, leaving the socket set |
| FtpCommands.Exchange | CPSC317/cs317_a1_e0p8_u4o8/ftp/commands/FTPConnection.java:126-155 | sending a command adds it, with CRLF, to what was sent; its one-line reply is then read and returned |
| FtpCommands.User | CPSC317/cs317_a1_e0p8_u4o8/ftp/commands/User.java:8-23 | `user` behaves as `UserStep` |
| FtpCommands.Pass | CPSC317/cs317_a1_e0p8_u4o8/ftp/commands/Pass.java:8-24 | `pass` behaves as `PassStep` |
| FtpCommands.LoginExchange | CPSC317/cs317_a1_e0p8_u4o8/ftp/commands/User.java:13-19 | the shared `try` block of `user` and `pass` behaves as `LoginTry` |
| FtpCommands.CatchIo | CPSC317/cs317_a1_e0p8_u4o8/ftp/commands/User.java:20-22 | a command's `catch (IOException e)` turns an I/O error into a control connection error |
| FtpCommands.LoginFollowsReply | CPSC317/cs317_a1_e0p8_u4o8/ftp/commands/User.java:14-18 | the session is logged in exactly when the reply starts 230; the command returns normally exactly when the reply's code is one `handleCommonErrorCode` ignores (or 503 when it is skipped); `pass` does the same (Pass.java:14-20) |
| FtpCommands.UserLogsInOn230 | CPSC317/cs317_a1_e0p8_u4o8/ftp/commands/User.java:8-23 | `user name` sends "USER name", is logged in exactly on 230, and returns normally exactly on a code that is ignored |
| FtpCommands.PassLogsInOn230 | CPSC317/cs317_a1_e0p8_u4o8/ftp/commands/Pass.java:8-24 | `pass word` sends "PASS word", is logged in exactly on 230, and returns normally on an ignored code and on 503 as well |
| FtpCommands.CaughtKeeps | CPSC317/cs317_a1_e0p8_u4o8/ftp/commands/User.java:20-22 | the `catch` lets every outcome other than an I/O error through unchanged |
| FtpCommands.UserReply421 | CPSC317/cs317_a1_e0p8_u4o8/ftp/commands/User.java:18 | a 421 reply to `user` ends the session with 925 |
| FtpCommands.PasvExchange | CPSC317/cs317_a1_e0p8_u4o8/ftp/commands/Pasv.java:13-20 | the `try` block of `pasv` behaves as `PasvTry` |
| FtpCommands.Pasv | CPSC317/cs317_a1_e0p8_u4o8/ftp/commands/Pasv.java:8-24 | `pasv` behaves as `PasvStep` |
| FtpCommands.PasvStoresAddress | CPSC317/cs317_a1_e0p8_u4o8/ftp/commands/Pasv.java:16-19 | after an ignored code, the data address is set exactly when the reply holds one; otherwise 999 is thrown and the address is left as it was |
| FtpCommands.PasvRejected | CPSC317/cs317_a1_e0p8_u4o8/ftp/commands/Pasv.java:18 | after a rejected code, the failure is thrown and the address left as it was |
| FtpCommands.PassiveModeQuiet | CPSC317/cs317_a1_e0p8_u4o8/ftp/commands/Parse.java:15 | "227 Entering Passive Mode (" holds no start of a match |
| FtpCommands.PasvEnteringPassiveMode | CPSC317/cs317_a1_e0p8_u4o8/ftp/commands/Pasv.java:14-19 | the reply "227 Entering Passive Mode (h1,h2,h3,h4,p1,p2)" sets the address to host h1.h2.h3.h4 and port p1 * 256 + p2, and returns normally |
| FtpCommands.QuitExchange | CPSC317/cs317_a1_e0p8_u4o8/ftp/commands/Close.java:12-17 | the `try` block of `close` behaves as `QuitTry` |
| FtpCommands.Close | CPSC317/cs317_a1_e0p8_u4o8/ftp/commands/Close.java:8-24 | `close` as written behaves as `CloseCommandStep` |
| FtpCommands.ReadReplySettled | CPSC317/cs317_a1_e0p8_u4o8/ftp/commands/FTPConnection.java:133-155 | reading a reply leaves the session connected, or cleared |
| FtpCommands.CommonErrorSettled | CPSC317/cs317_a1_e0p8_u4o8/ftp/commands/FTPUtil.java:95-117 | `handleCommonErrorCode` keeps the session connected or cleared |
| FtpCommands.QuitSettled | CPSC317/cs317_a1_e0p8_u4o8/ftp/commands/Close.java:12-20 | the QUIT exchange, caught or not, leaves the session connected or cleared |
| FtpCommands.CloseCommandEndsSession | CPSC317/cs317_a1_e0p8_u4o8/ftp/commands/Close.java:8-24 | once its checks pass, `close`, as written and as intended, ends the session whatever the server and the sockets do |
| FtpCommands.CloseLostConnectionAsWritten | CPSC317/cs317_a1_e0p8_u4o8/ftp/commands/Close.java:18-23 | as written, `close` whose QUIT cannot be sent ends with a null pointer exception: the `catch` closes the connection and the `finally` closes it again |
| FtpCommands.CloseLostConnection | CPSC317/cs317_a1_e0p8_u4o8/ftp/commands/Close.java:18-23 | as intended, the same `close` reports 925, the control connection's I/O error |
| FtpCommands.HandleCode | CPSC317/cs317_a1_e0p8_u4o8/ftp/commands/Stor.java:68-96 | the `handleCode` of `stor`, `retr` and `list` behaves as `ReplyCodeStep` |
| FtpCommands.HandleCodesAgree | CPSC317/cs317_a1_e0p8_u4o8/ftp/commands/Stor.java:68-96 | the `handleCode` tables of `stor`, `retr` and `list` act alike: the codes only `stor` lists are ones `handleCommonErrorCode` ignores; `retr` is at Retr.java:73-96 |
| FtpCommands.FinishTransfer | CPSC317/cs317_a1_e0p8_u4o8/ftp/commands/Stor.java:26-29 | closing the data connection and reading the second reply behave as `AfterTransfer` |
| FtpCommands.TransferExchange | CPSC317/cs317_a1_e0p8_u4o8/ftp/commands/Stor.java:16-31 | the `try` block of `stor` and `retr` behaves as `TransferTry` |
| FtpCommands.CatchTransfer | CPSC317/cs317_a1_e0p8_u4o8/ftp/commands/Stor.java:32-40 | the three `catch` blocks behave as `TransferCaught` |
| FtpCommands.TransferFile | CPSC317/cs317_a1_e0p8_u4o8/ftp/commands/Stor.java:11-45 | the whole of `execute` for the two transfer commands behaves as `TransferStep`, and reports whether the `finally` block reaches `file = null` (`TransferForgets`) |
| FtpCommands.FileKeptOnCloseFailure | CPSC317/cs317_a1_e0p8_u4o8/ftp/commands/Stor.java:41-44 | once the checks pass, a command that keeps its file has thrown the 999 of a failed data close |
| FtpCommands.Stor.constructor | CPSC317/cs317_a1_e0p8_u4o8/ftp/commands/Stor.java:98-102 | the command holds the file it was given |
| FtpCommands.Stor.Execute | CPSC317/cs317_a1_e0p8_u4o8/ftp/commands/Stor.java:11-45 | `stor` behaves as `TransferStep` for storing; it forgets its file exactly when its checks pass and the `finally` block's `closeDataConnection` returns, and keeps it when that close throws |
| FtpCommands.Retr.constructor | CPSC317/cs317_a1_e0p8_u4o8/ftp/commands/Retr.java:98-101 | the command holds the file it was given |
| FtpCommands.Retr.Execute | CPSC317/cs317_a1_e0p8_u4o8/ftp/commands/Retr.java:13-50 | `retr` behaves as `TransferStep` for retrieving; it forgets its file exactly when its checks pass and the `finally` block's `closeDataConnection` returns, and keeps it when that close throws |
| FtpCommands.FirstReply | CPSC317/cs317_a1_e0p8_u4o8/ftp/commands/Stor.java:17-19 | sending the command, opening the data connection and reading the first reply consume the pending address and open the data connection |
| FtpCommands.TransferStopped | CPSC317/cs317_a1_e0p8_u4o8/ftp/commands/Stor.java:21-44 | a first reply that stops the transfer (a 550, say): one reply is read, nothing is copied, and the `finally` block closes the data connection |
| FtpCommands.StoppedCloseFails | CPSC317/cs317_a1_e0p8_u4o8/ftp/commands/Stor.java:41-44 | a first reply that stops the transfer, with a data connection that fails to close: 999 is thrown, the data connection is gone and the file is kept |
| FtpCommands.TransferCompletes | CPSC317/cs317_a1_e0p8_u4o8/ftp/commands/Stor.java:16-44 | with a first reply of 150, 226 or 250, a copy that succeeds and a second reply that is not an error, both replies are read, the command returns normally and no address or data connection is left |
| FtpCommands.ListLeavesDataOpen | CPSC317/cs317_a1_e0p8_u4o8/ftp/commands/List.java:16-33 | `list` has no `finally`: a first reply of 125 or 425 throws 999 or 920 with the data connection still open |
| FtpCommands.TransferRefusedClosesData | CPSC317/cs317_a1_e0p8_u4o8/ftp/commands/Stor.java:41-80 | the same replies to `stor` or `retr` throw the same failures, and the `finally` block closes the data connection |
| FtpCommands.TransferLeavesNoData | CPSC317/cs317_a1_e0p8_u4o8/ftp/commands/Stor.java:41-44 | whatever happens, `stor` and `retr` leave no data connection behind; `retr` does the same at Retr.java:46-49 |
| FtpCommands.CloseDataClears | CPSC317/cs317_a1_e0p8_u4o8/ftp/commands/FTPConnection.java:83-93 | `closeDataConnection` only ever drops the data connection |
| FtpCommands.ReadDirectory | CPSC317/cs317_a1_e0p8_u4o8/ftp/commands/List.java:35-46 | `readDirectory` behaves as `ReadDirectoryStep` |
| FtpCommands.ListExchange | CPSC317/cs317_a1_e0p8_u4o8/ftp/commands/List.java:16-26 | the `try` block of `list` behaves as `ListTry` |
| FtpCommands.List | CPSC317/cs317_a1_e0p8_u4o8/ftp/commands/List.java:11-33 | `list` behaves as `ListStep` |
| FtpCommands.CommandTableRoundTrip | CPSC317/cs317_a1_e0p8_u4o8/ftp/commands/Commands.java:16-31 | the lookup finds exactly the eight registered names, each for its own command |
| FtpCommands.InternalCommandsHidden | CPSC317/cs317_a1_e0p8_u4o8/ftp/commands/Commands.java:7-31 | the commands the client issues itself are not user commands, and the lookup is case-sensitive |

## Left out

RTSP/RTP client:
- The TCP and UDP sockets, `sendRequestAndWaitForResponse` and the parsing of `RTSPResponse` are not part of this model. Its class is not among the sources. A reply is given as its code and session header.
- `java.util.Timer` scheduling and the `synchronized` blocks are replaced by explicit events, one call per timer run, so concurrent timer runs are not modelled.
- `System.currentTimeMillis()` is a parameter of each event.
- `displayStat` is left out because it computes floating-point rates. The LOG and FrameLog paths are left out too.
- The `Frame` class is not among the sources. A frame is a datatype whose order in the jitter buffer is by sequence number.

Key-value service:
- The goroutines, channels and `RWMutex` coordination of `kv-front-end.go` are left out, because their behaviour is about concurrency:
  - `KvRequestQueue`, `handleKvNode`, `listenKvNodeResponse`, `mainRoutine`, `nodesRoutine`, `replicationRoutine`, `filterChannelUnavailable` and `startKvService`;
  - the "CMD" kill commands.
  A channel of replies is the sequence of replies it delivers.
- `math/rand` is left out. The shuffle's choice of position is nondeterministic.
- `kv-node.go` `main` and `writeRoutine` (TCP and JSON) are left out.
- The `node.go` leader routines are left out, because they are RPC loops with sleeps and goroutines: `getValU`/`putValU` nonce retries, ping/pong/join and the leader and follower loops.
- `client.go`, `auth-server.go` and `fortune-server.go` are not part of this model. They are UDP/RPC plumbing around MD5 and random nonces.
- LeaderNode.StringToLeaderVal: Go panics (index out of range) on text with fewer than five fields; the model returns None.
- KvFrontEnd.SetResponse: Go panics on a nil entry for an available reply without the key; the model returns None.
- Go library routines are modelled only as far as their callers use them (`GoText`). Only the value each parser returns is modelled, not its error.
- KvUtil.ByteReader: the end of the stream is the only read error besides a full buffer. Other socket errors are not modelled.

Filtering HTTP proxy:
- The socket and file plumbing is not part of this model:
  - proxyFilter.c `main`, `startServer`, `process_client`, `proxy_get` and `send_message`;
  - parse.c `readbuf` and `br_send_message`;
  - cache.c `mkstemp`, `rename`, `fopen` and `write_all`;
  - the worker threads.
  Each `recv` is modelled as the size of the next piece of an abstract stream. The file system is a value, and the outcome of connecting to the host is a parameter.
- HttpReader.Reader.ReadRun: the value of a digit run is an unbounded natural number. `read_int` (`atoi`) and `read_hex` (`strtol` narrowed to `int`) wrap it to 32 bits, which is not modelled. For example:
  - "Content-Length: 2147483648" becomes INT_MIN in the C code, which fails the `len >= 0` test and matches none of the framing branches;
  - 4294967295, or any value of 2^63 or more, becomes −1 and takes the chunked branch;
  - a chunk size of "100000000" becomes 0 and ends the chunk loop.
- HttpReader.Reader.LengthField: the length it reports is not narrowed to a C `int`, for the same reason as ReadRun.
- HttpReader.LengthValue: the length it reports is not narrowed to a C `int`, for the same reason as ReadRun.
- BanFilter.Filter.FilterHost: the lowercased copy has room for the whole host. The C code copies into `lower[101]` and overflows it for a host longer than 100 characters.
- BanFilter.Filter.ReadFilterList: the ban list is unbounded. The C array `banlist[100]` overflows on a file of more than 100 lines.
- HttpRequest.CheckGet: the host and resource are copied without the `host_len`/`resource_len` bounds. The C code overflows `HOST_LENGTH`/`RESOURCE_LENGTH` on longer values, and that overflow is not modelled.
- ProxyCache.Word: four bytes are read as a little-endian `unsigned int`. `hash` reads them in the machine's native byte order, so the file names match the C code's only on little-endian machines.
- ProxyFilter.ProcessRequest: runs on the corrected parsers (`HttpRequest.GetRequest`/`CheckGet`), so a Host-less request ending "\r\n\r\n" gets 400. As written, the search reads past the NUL (HttpRequest.CrlfEndReadsPast).
- ProxyFilter.Served: uses the same corrected parsers as ProcessRequest.
- ProxyFilter.Served: its `ShortHeader => CacheError` stands for undefined behaviour. When a cached file's first line is shorter than two bytes, cache.c:114 writes before its buffer.
- ProxyFilter.Served: `fetchOk` is a free parameter and is not tied to the result `r` of `Pipe`. So the double reply is not visible: `Pipe` sends 502 or 504, then `process_request` sends 500 (proxyFilter.c:203).
- ProxyResponse.SendResponse: it sends through the corrected table and loop, so "400" sends 47 bytes where the code sends 45, and a partial send continues where it stopped. The as-written table and loop are `CannedAsWritten` and `ResSendMessageAsWritten`.
- ProxyResponse.SendResponse: `requires Finishes` excludes the endless loop in which `send` returns 0 forever (response.c:28-30). That loop is not modelled.
- ProxyResponse.SendResponse: an unrecognised code has no return value in the C function; the model gives None.
- HttpReader.Reader: its `data` field (the sequence of received blocks) stands for the same `queue_t` as `ChunkQueue.Queue`. `ProxyCache.CreateCacheFile` takes a `Queue` while `ProxyFilter.Pipe` yields `rd.data`. The two correspond by representation only: the buffers of the queue's nodes after the sentinel are the blocks of `data`, in order.
- ChunkQueue.Chunk.constructor: it returns the new node. `create_queue_t` has no return statement, so its caller reads an undefined value.
- Memory release is modelled by reporting the nodes and buffers handed to `free`. Allocation failure is not modelled.

FTP client:
- Sockets, socket timeouts and the 10-second wait for a reply in `readReplyAndReturnFirstLine` are not modelled. The server is the sequence of lines it sends, and a wait that times out (`ReplyTimeoutException`) is treated as the `IOException` it extends.
- The printing of sent and received messages is left out.
- The byte copying of `Stor`/`Retr` `pipe` is left out. Its outcome is a `Net` parameter.
- `Retr`'s creation of parent directories is left out.
- The `IOException` from closing the `BufferedOutputStream` is left out.
- The `IOException` from closing `Stor`'s `FileInputStream` (its try-with-resources) is left out. Java catches it in `catch (IOException e)` and reports a control connection error (925).
- FtpParse.ParseInt: digits are the ASCII '0'..'9' only. `Integer.parseInt` also takes every other Unicode decimal digit (`Character.digit`), so fullwidth "２１" is 21 in Java and not a number here. The Unicode digit tables are not modelled.
- FtpParse.ParseIntRejects: it states rejection for text with any character other than an ASCII digit after the optional sign. That includes non-ASCII decimal digits, which Java accepts (see ParseInt).
- FtpCommands.OpenPort: a port written in non-ASCII decimal digits fails with 902 here, where `open` connects to that port (see ParseInt).
- FtpCommands.OpenPortNotANumber: it states the 902 refusal for ports written in non-ASCII decimal digits too, which Java accepts (see ParseInt).
- The absolute-path handling of `File` is left out.
- The failure of stream creation in `setConnection` is left out.
- FtpMessages.Substitute: arguments are copied literally. Java's `replaceFirst` treats `$` and `\` in an argument as replacement syntax, which is not modelled.
- `CSftp.java` (the console read loop) is not part of this model.
- `DataConnection.java` (a socket wrapper) is not part of this model.
- The thin commands `Cwd`, `Type`, `Dir`, `Put`, `Get` and `Quit` are not modelled. Each is a fixed sequence of sends whose replies go through `handleCommonErrorCode`, which is modelled; `Quit` also calls `System.exit`.
- FtpCommands.Close: models `Close.execute` as written (CloseCommandStep). The intended form (CloseCommandIntendedStep) is stated alongside it (see Findings).

## Findings

| source | as written | input that shows it | evidently intended | confidence | as-written member | corrected member |
|---|---|---|---|---|---|---|
| CPSC317/CS317_a3_e0p8_u4o8/parse.c:302 | the Host search stops at an empty line only on "\n" or "\r\r" | a GET request with no Host line that ends with "\r\n\r\n": the search passes the empty line and reads past the terminating NUL | stop at "\r\n" (an empty CRLF line) and answer NO_HOST | not executed | HttpRequest.CheckGetAsWritten, HttpRequest.CrlfEndReadsPast | HttpRequest.CheckGet, HttpRequest.NoHostRequest |
| CPSC317/CS317_a3_e0p8_u4o8/parse.c:338-341 | `get_port` steps back over digits with no bound at the start of the host | the host "" or "8080" (all digits): the pointer moves before the string | stop at the start of the host and report no port | not executed | HttpRequest.GetPortAsWritten, HttpRequest.PortBeforeStart | HttpRequest.GetPort, HttpRequest.PortStart |
| CPSC317/CS317_a3_e0p8_u4o8/proxyFilter.c:166 | the end-of-header test reads `buf-2` and `buf-3` after the first piece | a client whose first piece is "\n" or "\r\n": the test reads before the request buffer | test only bytes that have been received | not executed | ProxyFilter.EndsHeadAsWritten, ProxyFilter.EmptyFirstLineReadsBefore | ProxyFilter.EndsHead, ProxyFilter.ReadRequest |
| CPSC317/CS317_a3_e0p8_u4o8/filter.c:35 | the line trim reads `tempstore[len-2]` whatever `len` is | a ban file line "\n", or a last line "x" without newline: after the newline is cut, `len-2` indexes before the buffer | look for '\r' only when the line has at least two characters | not executed | BanFilter.TrimAsWritten, BanFilter.BlankLineReadsBefore | BanFilter.Trim |
| CPSC317/CS317_a3_e0p8_u4o8/queue.c:28-38 | `free_queue` frees each node's buffer except the last node's | any queue with one chunk enqueued: its buffer is never freed | free every node's buffer | not executed | ChunkQueue.Queue.FreeAsWritten | ChunkQueue.Queue.Free |
| CPSC317/CS317_a3_e0p8_u4o8/response.c:39 | the 400 response is sent with `CODE_404_LEN` (45) | code "400": the final CRLF of the 47-byte response is not sent, so the header block never ends | send it with its own length, 47 | not executed | ProxyResponse.CannedAsWritten, ProxyResponse.BadRequestTruncated | ProxyResponse.CannedFor, ProxyResponse.CannedMatchesCode |
| CPSC317/CS317_a3_e0p8_u4o8/response.c:25-33 | `res_send_message` offers the whole message from its start on every call | the 403 response with `send` returning 10 and then 35: the first 10 bytes go out twice and the last 10 never | offer the unsent rest, `message + bytes_sent`, `message_len - bytes_sent` | not executed | ProxyResponse.ResSendMessageAsWritten, ProxyResponse.PartialSendRepeats | ProxyResponse.ResSendMessage |
| CPSC317/cs317_a2_e0p8_u4o8/src/ubc/cs317/rtsp/client/net/RTSPConnection.java:465 | `packet[1] >> 7 == 1` on a signed byte, which yields 0 or −1 | `packet[1] = -128` (0x80, marker set): the marker is reported unset; it is never set for any byte | test the top bit of the unsigned octet (section 5.1 of RFC 3550) | not executed | Rtp.ParseRtpPacket, Rtp.MarkerAsWrittenNeverSet, Rtp.MarkerAsWrittenMissesSetBit | Rtp.ParseRtpPacketIntended, Rtp.ParseEncodedHeader, Rtp.MarkerMeansTopBit |
| CPSC317/cs317_a1_e0p8_u4o8/ftp/commands/Close.java:18-23 | the `finally` block calls `con.close()` after the `catch` has already closed the connection through `connectionIOError` | `close` when QUIT cannot be written: the second `close()` dereferences the null socket and a NullPointerException escapes instead of 925 | close in `finally` only a connection still open, so the caller sees 925 | not executed | FtpCommands.CloseCommandStep, FtpCommands.CloseLostConnectionAsWritten | FtpCommands.CloseCommandIntendedStep, FtpCommands.CloseLostConnection |
