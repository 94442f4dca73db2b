# Clipper protocol core in Dafny

Clipper captures network traffic, puts TCP streams back together, decrypts TLS with keys it is given,
and speaks HTTP/2 through a modified `h2`.  This project models the parts of it whose correctness is
hardest to see, and proves what they are for.

- **HPACK** (`RobinHood`, `RobinHoodGrowth`, `TableChains`, `HpackTable`, and the `Hpack*` modules).
  The encoder's table is a FIFO of headers with a Robin Hood hash index and chains of equal names, all
  changed in place.  Any run of calls on it answers as a linear scan would.  On top of it stand the
  encoder, the decoder and their lockstep over whole connections, resumable decoding, the coalescing of
  size updates, what may be stored, and the blocks of any other peer (RFC 7541).
- **Frames** (`H2Head`, `H2Fragment`, `H2HeaderBlock`, `H2Malformed`, `H2Read`, `H2ReadBack`, `H2Order`,
  `H2Peer`, `H2Reader`, `H2Wire`, `H2Writer`, `H2Pipe`, `H2Run`).  A header block is cut into HEADERS or
  PUSH_PROMISE and CONTINUATION frames, written through a socket that takes what it likes, cut back into
  frames and read.  Every frame written arrives once, in order, as it was, with limits changing on the
  way, and nothing interrupts a header block (sections 4 and 6.10 of RFC 7540).
- **Control frames** (`Supply`, `H2Codec`, `H2GoAway`, `H2PingPong`, `H2Settings`, `H2Loop`,
  `H2Promise`, `H2Events`, `H2Shutdown`, `H2Ledger`, `H2Connection`, `UserPings`).  The poll loop keeps
  its promises about GOAWAY, PING and SETTINGS over every run: what it owes goes out unless the socket
  refuses, every end has a cause, and every event its effect.  The two-thread protocol for user pings
  keeps its own under every interleaving (sections 6.5.3, 6.7 and 6.8 of RFC 7540).
- **TCP** (`TcpSequence`, `TcpReorder`, `TcpReassemble`).  The reorder buffer delivers a prefix of the
  stream over wrapping sequence numbers, and all of it in the end unless a shorter segment replaces a
  longer one (section 3.4 of RFC 9293).
- **TLS** (`TlsHandshake`, `TlsMeaning`, `TlsFlow`, `TlsQueue`, `TlsTracker`, `TlsLate`, `TlsLateIff`,
  `TlsLateSample`, `KeyDb`).  Over every run each message acts once, no octet is lost, what is passed on
  is what the messages say, and each secret is installed in its place.  It is proved exactly when a flow whose
  keys come late ends up where it would be had they come early.  The key log is read back as it was
  written.

Objects that the source updates in place are classes here, each proved against functions on values; the
theorems are about those functions.  `Valid` or `Inv` is the invariant of a class.

What lives outside is a parameter: the hash of a header name, the Huffman coder (assumed to round trip),
the HTTP grammar of names and values (assumed only to refuse empty field names and ones that start with
a colon), the TLS record layer and cipher suites, the socket's answers, and, for the control loop, a
script of what the socket and the stream layer answer and of what the peer sends.  The stream layer is
assumed not to process ids above the last one announced, and to report settings failures as connection
errors.  TLS flows are assumed not to share a client random.

Where the code differs from what one might expect, the model follows the code:

- A `PUSH_PROMISE` whose header block is empty is written but refused when read back; read-back holds
  exactly for the others (`H2ReadBack.BlockReadBackIff`).
- A malformed header is forgotten when its fragment ends inside a representation
  (`H2ReadBack.MalformedForgotten`); `H2ReadBack.PiecesJudgedAlikeIff` says exactly when.
- Pieces of a header block may be accepted where the whole is not, for two reasons: a resumed decode
  allows size updates afresh, and a literal with an empty name asks for more after its octets are gone
  (`HpackResume.LateUpdateAccepted`, `HpackResume.EmptyNameSkipped`).  `HpackResume.WholeAcceptedIff`
  says exactly when.
- An integer of 2^n - 1 + 2^28 or more can be written but not read (`HpackInt.IntRoundTrip`), which is
  why lockstep asks for table limits below it.
- Resuming a header block recounts its size without `:protocol`; blocks within the limit are unaffected
  (`H2HeaderBlock.LoadSplit`).
- A TCP segment replaces one buffered at the same sequence number even if it is shorter, and the rest is
  lost (`TcpReorder.EmptySegmentLosesData`); `TcpReorder.LosesNothingIff` says exactly when.
- A GOAWAY that announces an error but is refused by the socket can be replaced by one without an error,
  when the peer has said GOAWAY and no streams are left
  (`H2Events.AnnouncementReplaced`); `H2Events.OverwrittenIff` says exactly when.
- TLS keys that come late can lose output for good: after a held message has acted, what is behind it in
  its direction is not read until the next chunk, and by then the keys may have changed
  (`TlsLateSample.LateKeysLoseOutput`).  `TlsLateIff.KeysNeverMatterIff` says exactly when they do not.

## Model

| member | source | states |
|---|---|---|
| `HpackTable.Table.Perform` | h2-intercept/src/hpack/table.rs:134-158 | any run of `index` and `resize` calls gives the answers, contents and limit that a linear scan of a plain FIFO gives, keeps the whole-table invariant, and never stores a `:path` or one of the nine fields that must not be stored |
| `HpackTable.Table.Index` | h2-intercept/src/hpack/table.rs:134-158 | one call: the index returned and the new contents are those of the linear scan; the header is in the table afterwards exactly when it was before or is neither marked, unstorable nor a static entry and takes at most three quarters of the table |
| `HpackTable.Table.IndexDynamicHeader` | h2-intercept/src/hpack/table.rs:160-203 | the same for a header that reaches the dynamic table, after room has been reserved |
| `HpackTable.Table.Lookup` | h2-intercept/src/hpack/table.rs:175-203 | a probe hits exactly when the name is present, stopping at the head of its chain; a miss stops at a bucket the new entry may take |
| `HpackTable.ProbeMiss` | h2-intercept/src/hpack/table.rs:181-203 | a probe that stops at an empty or less displaced bucket proves that no slot has the name |
| `HpackTable.ProbeIsShort` | h2-intercept/src/hpack/table.rs:181-203 | no probe goes all the way round, so every probe loop ends |
| `HpackTable.Table.IndexOccupied` | h2-intercept/src/hpack/table.rs:205-264 | a known name: the chain search, the sensitive case, insertion and its evictions answer as the scan does |
| `HpackTable.Table.SearchChain` | h2-intercept/src/hpack/table.rs:217-229 | walking the `next` links finds an equal slot, or proves there is none and ends at the newest slot of the name |
| `HpackTable.Table.InsertOccupied` | h2-intercept/src/hpack/table.rs:237-251 | inserting behind a chain keeps the invariant even when the chain's tail is evicted by the insertion itself |
| `HpackTable.Table.InsertTail` | h2-intercept/src/hpack/table.rs:239-251 | the old tail links to the new slot, or the pending bucket points at it if the tail is gone |
| `HpackTable.Table.IndexVacant` | h2-intercept/src/hpack/table.rs:266-338 | a new name: eviction, walk-back and insertion answer as the scan does and keep the invariant |
| `HpackTable.Table.WalkBack` | h2-intercept/src/hpack/table.rs:283-301 | after evictions the walk back ends at a bucket the new entry may take without breaking Robin Hood order |
| `HpackTable.Table.PlaceAt` | h2-intercept/src/hpack/table.rs:309-329 | the forward shift adds exactly one entry and keeps the probe order |
| `HpackTable.Table.Insert` | h2-intercept/src/hpack/table.rs:340-348 | a slot is pushed in front and the insertion counter wraps at 2^64 |
| `HpackTable.Table.Resize` | h2-intercept/src/hpack/table.rs:350-365 | the contents become the longest newest part that fits the new limit; limit 0 clears everything |
| `HpackTable.Table.Clear` | h2-intercept/src/hpack/table.rs:353-361 | an empty table with every bucket empty, invariant kept |
| `HpackTable.Table.Converge` | h2-intercept/src/hpack/table.rs:372-381 | evicts oldest slots exactly until the size fits, counting the entry being inserted |
| `HpackTable.Table.Evict` | h2-intercept/src/hpack/table.rs:383-428 | drops the last slot; its chain's head moves to the next link, to the pending insertion, or leaves the buckets |
| `HpackTable.Table.RemoveHead` | h2-intercept/src/hpack/table.rs:409-421 | the bucket of the evicted head is repointed or removed, nothing else changes |
| `HpackTable.Table.FindBucket` | h2-intercept/src/hpack/table.rs:405-411 | the bucket that points at a given slot is found before the probe runs into an empty one |
| `HpackTable.Table.RemovePhaseTwo` | h2-intercept/src/hpack/table.rs:432-451 | the back shift removes exactly one entry and leaves no entry further from its ideal bucket |
| `HpackTable.Table.ReserveOne` | h2-intercept/src/hpack/table.rs:453-466 | room for one more slot, with a bucket to spare |
| `HpackTable.Table.Grow` | h2-intercept/src/hpack/table.rs:469-501 | doubling keeps every entry findable and in order, and no entry's displacement grows |
| `HpackTable.Table.FirstIdeal` | h2-intercept/src/hpack/table.rs:475-485 | some entry sits in its ideal bucket |
| `HpackTable.Table.CarryOver` | h2-intercept/src/hpack/table.rs:487-498 | going round from that entry carries over every bucket |
| `HpackTable.Table.ReinsertEntryInOrder` | h2-intercept/src/hpack/table.rs:503-524 | each entry finds a free bucket without stealing, no further out than it was |
| `HpackTable.Table.constructor` | h2-intercept/src/hpack/table.rs:75-97 | an empty table that satisfies the invariant |
| `HpackTable.SpareBucket` | h2-intercept/src/hpack/table.rs:648-655 | fewer slots than buckets leaves a bucket empty |
| `RobinHood.PathToEntry` | h2-intercept/src/hpack/table.rs:181-203 | every bucket between an entry's ideal bucket and its own is at least as displaced as the distance travelled |
| `RobinHood.NotFull` | h2-intercept/src/hpack/table.rs:181-203 | no entry is displaced all the way round |
| `RobinHood.InsertKeepsOrder` | h2-intercept/src/hpack/table.rs:309-329 | shifting a run forward keeps Robin Hood order |
| `RobinHood.InsertAddsOne` | h2-intercept/src/hpack/table.rs:309-329 | after the shift the buckets hold what they held and the new entry |
| `RobinHood.InsertKeepsDistinct` | h2-intercept/src/hpack/table.rs:309-329 | no two buckets point at the same slot after an insertion |
| `RobinHood.RemoveKeepsOrder` | h2-intercept/src/hpack/table.rs:432-451 | shifting a displaced run back keeps the order, an empty bucket, and no entry moves further out |
| `RobinHood.RemoveDropsOne` | h2-intercept/src/hpack/table.rs:432-451 | the back shift loses the removed entry and no other |
| `RobinHood.RemoveKeepsDistinct` | h2-intercept/src/hpack/table.rs:432-451 | no two buckets point at the same slot after a removal |
| `RobinHood.Repoint` | h2-intercept/src/hpack/table.rs:412-417 | repointing a bucket to another slot of equal hash moves nothing |
| `RobinHoodGrowth.TwoLines` | h2-intercept/src/hpack/table.rs:487-498 | doubling keeps an ideal bucket or moves it by the old capacity |
| `RobinHoodGrowth.NoWrap` | h2-intercept/src/hpack/table.rs:475-485 | seen from an ideally placed entry no displacement wraps |
| `RobinHoodGrowth.Sorted` | h2-intercept/src/hpack/table.rs:487-498 | seen from there, entries lie in order of their ideal buckets |
| `RobinHoodGrowth.RoomInOrder` | h2-intercept/src/hpack/table.rs:503-524 | the bucket at the old displacement is still free when an entry's turn comes |
| `RobinHoodGrowth.CarryOne` | h2-intercept/src/hpack/table.rs:503-524 | filling the first free bucket keeps Robin Hood order |
| `RobinHoodGrowth.CarriedSame` | h2-intercept/src/hpack/table.rs:487-498 | after growth the buckets hold exactly the entries they held |
| `RobinHoodGrowth.CarriedNoFurther` | h2-intercept/src/hpack/table.rs:487-498 | each entry's new displacement is at most its old one |
| `TableChains.EvictKeepsLinks` | h2-intercept/src/hpack/table.rs:383-428 | dropping the oldest slot leaves every other link right |
| `TableChains.EvictKeepsHeaded` | h2-intercept/src/hpack/table.rs:383-428 | after an eviction the buckets again point at exactly the oldest slot of each name, or at the insertion under way |
| `TableChains.PushKeepsLinks` | h2-intercept/src/hpack/table.rs:239-251 | pushing a slot and linking the old tail to it leaves every link right |
| `TableChains.PushKeepsHeaded` | h2-intercept/src/hpack/table.rs:305-329 | after a push the buckets point at exactly the oldest slot of each name |
| `TableChains.IdAfterPush` | h2-intercept/src/hpack/table.rs:340-348 | stored positions stay valid across insertions, wrapping included |
| `TableChains.HeadReachedOnce` | h2-intercept/src/hpack/table.rs:532-621 | the oldest slot of a name is reached by exactly one bucket and by no link |
| `TableChains.TailReachedOnce` | h2-intercept/src/hpack/table.rs:532-621 | every other slot is reached by no bucket and by exactly one link, from an older slot of its name |
| `HpackStatic.IndexStaticFits` | h2-intercept/src/hpack/table.rs:677-766 | a static match names an entry of that name, and of that value when it says so |
| `HpackStatic.SkippedIsStatic` | h2-intercept/src/hpack/header.rs:189-208 | headers whose values are not indexed always have a static name |
| `HpackPolicy.SkipsUnstored` | h2-intercept/src/hpack/header.rs:189-208 | the headers that are not stored are `:path` and age, authorization, content-length, cookie, etag, if-modified-since, if-none-match, location and set-cookie, and no others |
| `HpackPolicy.RunUnstored` | h2-intercept/src/hpack/table.rs:134-158 | no run of calls puts one of them in the table |
| `HpackPolicy.Chooses` | h2-intercept/src/hpack/table.rs:134-203 | exactly when a header is stored, when it is sent as one index, and when its name is written out |
| `HpackPolicy.FindsStaticName` | h2-intercept/src/hpack/table.rs:675-766 | the encoder finds every name of the static table and no other |
| `HpackPolicy.FindsStaticHeader` | h2-intercept/src/hpack/table.rs:675-766 | and every entry that has a value, whole |
| `HpackAppendix.StaticTableIs` | h2-intercept/src/hpack/decoder.rs:619-827 | the decoder's static table is, entry by entry, Appendix A of RFC 7541 |
| `HpackFifo.EvictTo` | h2-intercept/src/hpack/decoder.rs:555-572 | the longest newest part of the entries that fits the limit |
| `HpackFifo.NewestNamed` | h2-intercept/src/hpack/table.rs:205-264 | the newest entry of a name, as a scan finds it |
| `HpackFifo.NewestEqual` | h2-intercept/src/hpack/table.rs:205-264 | the newest entry equal in name and value, as a scan finds it |
| `HpackFifo.InsertKeeps` | h2-intercept/src/hpack/table.rs:217-240 | insertion never makes two entries equal in name and value |
| `HpackInt.EncodeInt` | h2-intercept/src/hpack/encoder.rs:264-293 | writes the prefix integer of section 5.1 of RFC 7541 behind the buffer |
| `HpackInt.DecodeInt` | h2-intercept/src/hpack/decoder.rs:391-448 | the loop computes the parse, reading at most five octets |
| `HpackInt.IntRoundTrip` | h2-intercept/src/hpack/decoder.rs:391-448 | decoding an encoded value gives it back exactly when it is below 2^n - 1 + 2^28, and IntegerOverflow otherwise, whatever follows |
| `HpackInt.Examples` | h2-intercept/src/hpack/encoder.rs:264-293 | the examples of section C.1 of RFC 7541 |
| `HpackInt.IntExtends` | h2-intercept/src/hpack/decoder.rs:391-448 | an integer that is complete reads the same whatever follows; otherwise the decoder asks for more |
| `HpackString.EncodeStr` | h2-intercept/src/hpack/encoder.rs:216-261 | leaves the old buffer, then the length prefix, then the Huffman octets, also when the prefix needs more than the hole left for it |
| `HpackString.WidenHole` | h2-intercept/src/hpack/encoder.rs:231-256 | the back-to-front shift makes room for a longer prefix and loses nothing |
| `HpackString.StringRoundTrip` | h2-intercept/src/hpack/decoder.rs:304-353 | an encoded string is read back, whatever follows |
| `HpackString.StringExtends` | h2-intercept/src/hpack/decoder.rs:304-353 | a string that is complete reads the same whatever follows; otherwise the decoder asks for more |
| `HpackEncoder.Encoder.QueueMaxSize` | h2-intercept/src/hpack/encoder.rs:30-58 | refines the pending None/One/Two update |
| `HpackEncode.CoalescedUpdates` | h2-intercept/src/hpack/encoder.rs:30-58 | however many limits come between two blocks, the update sent leaves the contents and limit that applying each one would have left |
| `HpackEncode.QueueStands` | h2-intercept/src/hpack/encoder.rs:30-58 | the pending update stands for the smallest limit seen and the last one |
| `HpackEncoder.Encoder.EncodeSizeUpdates` | h2-intercept/src/hpack/encoder.rs:99-113 | announces and applies the pending update |
| `HpackEncoder.Encoder.EncodeHeader` | h2-intercept/src/hpack/encoder.rs:115-154 | writes the representation its index calls for |
| `HpackEncoder.Encoder.EncodeHeaderWithoutName` | h2-intercept/src/hpack/encoder.rs:156-182 | writes a nameless repeat by the index of the header before it |
| `HpackEncoder.Encoder.Encode` | h2-intercept/src/hpack/encoder.rs:61-97 | over the hash table, writes the octets and leaves the state that the specification over a plain FIFO says |
| `HpackDecoder.DecoderTable.Insert` | h2-intercept/src/hpack/decoder.rs:525-536 | the entry is put in front and entries leave from the back until the rest fits, so an entry larger than the table empties it |
| `HpackDecoder.DecoderTable.Reserve` | h2-intercept/src/hpack/decoder.rs:544-553 | evicts oldest entries exactly until the new one fits |
| `HpackDecoder.DecoderTable.Consolidate` | h2-intercept/src/hpack/decoder.rs:555-572 | evicts oldest entries exactly until the limit is met |
| `HpackDecoder.DecoderTable.SetMaxSize` | h2-intercept/src/hpack/decoder.rs:538-542 | sets the limit and evicts down to it |
| `HpackDecoder.Decoder.QueueSizeUpdate` | h2-intercept/src/hpack/decoder.rs:166-173 | of several queued limits the largest counts |
| `HpackDecoder.Decoder.DecodeOne` | h2-intercept/src/hpack/decoder.rs:197-248 | one representation changes the table and reports a header as specified; a failure changes nothing |
| `HpackDecoder.Decoder.Decode` | h2-intercept/src/hpack/decoder.rs:176-251 | the loop emits, keeps and stops exactly as specified for the whole buffer |
| `HpackPeer.ReadBlock` | h2-intercept/src/hpack/decoder.rs:176-251 | a block of any peer, in any representation, with strings coded or not and entries of any size: headers, table and error are those the representations mean |
| `HpackPeer.ReadRep` | h2-intercept/src/hpack/decoder.rs:186-353 | the same of one representation, whatever follows it |
| `HpackDecode.AddStores` | h2-intercept/src/hpack/decoder.rs:525-553 | insertion into the deque is putting in front and keeping the longest newest part that fits |
| `HpackPeer.StaysWithin` | h2-intercept/src/hpack/decoder.rs:253-274 | over every input the table stays within its limit, and a new limit within what is allowed; none is taken behind a header |
| `HpackPeer.OnlyAccepted` | h2-intercept/src/hpack/header.rs:64-110 | over every input only headers that the HTTP types accept are reported or stored |
| `HpackLockstep.IndexMeans` | h2-intercept/src/hpack/table.rs:134-338 | what the encoder's index refers to is, in the decoder's table, the header or its name |
| `HpackLockstep.HeaderLockstep` | h2-intercept/src/hpack/decoder.rs:197-248 | one header: decoding its octets reports it and leaves the encoder's table |
| `HpackLockstep.NamelessLockstep` | h2-intercept/src/hpack/encoder.rs:156-182 | a nameless repeat decodes to the name of the header before it |
| `HpackLockstep.UpdatesLockstep` | h2-intercept/src/hpack/decoder.rs:253-269 | announced size updates leave both tables equal |
| `HpackLockstep.BlockLockstep` | h2-intercept/src/hpack/decoder.rs:176-302 | a whole block: the same list of names and values, nothing left over, equal entries, size and limit |
| `HpackLockstep.RunLockstep` | h2-intercept/src/hpack/encoder.rs:61-183 | lockstep over any run of limits and blocks, from tables that agree |
| `HpackLockstep.Fresh` | h2-intercept/src/hpack/encoder.rs:20-25 | a new connection starts in lockstep |
| `HpackLockstep.LargestAllowed` | h2-intercept/src/hpack/decoder.rs:166-173 | of several limits announced before a block the largest counts |
| `HpackMarks.BlockSuits` | h2-intercept/src/hpack/encoder.rs:115-222 | on the wire of any block exactly the headers that must not be indexed are marked so, known ones aside, and those without a name of their own too |
| `HpackMarks.RunNeverStores` | h2-intercept/src/hpack/encoder.rs:61-97 | at every point of a conversation neither table holds a header that must not be stored |
| `HpackExchange.Exchange` | h2-intercept/src/hpack/decoder.rs:176-251 | the encoder object over its hash table and the decoder object over its deque: headers come back and the tables agree |
| `HpackResume.OneExtends` | h2-intercept/src/hpack/decoder.rs:276-353 | a representation that is complete reads the same whatever follows |
| `HpackResume.OneKeepsBuffer` | h2-intercept/src/hpack/decoder.rs:458-484 | when more input would help, nothing has been used up |
| `HpackResume.DecodeSplit` | h2-intercept/src/hpack/decoder.rs:176-251 | a block that decodes in one go, cut in two anywhere: the first part asks for more at most, the second completes it |
| `HpackResume.FeedWhole` | h2-intercept/src/hpack/decoder.rs:176-251 | the same for any number of pieces: same headers, same order, same table |
| `HpackResume.WholeAcceptedIff` | h2-intercept/src/hpack/decoder.rs:186-246 | the converse, exactly: two pieces that are accepted make a block accepted whole, if and only if no header before the cut is followed by a size update in what remains, and the first piece does not end in a literal with an empty name |
| `HpackResume.PiecesAreFed` | h2-intercept/src/hpack/decoder.rs:176-251 | accepted in two pieces is what feeding the two pieces one after the other accepts |
| `HpackResume.LateUpdateAccepted` | h2-intercept/src/hpack/decoder.rs:186-246 | an input of the first kind, for every decoder: refused whole, accepted in two pieces |
| `HpackResume.EmptyNameSkipped` | h2-intercept/src/hpack/header.rs:64-67 | an input of the second kind, for every decoder: refused whole, accepted in two pieces with the header gone |
| `H2Head.FrameRoundTrip` | h2-intercept/src/frame/head.rs:40-73 | kind, flags, stream id and payload of a frame are read back |
| `H2Head.FramesToldApart` | h2-intercept/src/codec/mod.rs:44-50 | frames put end to end are cut apart again by their length fields |
| `H2Head.Cleared` | h2-intercept/src/frame/headers.rs:667-673 | taking END_HEADERS off leaves every other flag |
| `H2Head.KindsAre` | h2-intercept/src/frame/head.rs:79-93 | the type codes are those of section 6 of RFC 7540 |
| `H2Head.EndHeadersBit` | h2-intercept/src/frame/headers.rs:740-746 | END_HEADERS is bit two, and setting it leaves the others |
| `H2Head.PaddedBit` | h2-intercept/src/frame/headers.rs:748-750 | PADDED is bit three |
| `H2Head.PriorityBit` | h2-intercept/src/frame/headers.rs:752-754 | PRIORITY is bit five |
| `H2Fragment.EncodeFragment` | h2-intercept/src/frame/headers.rs:629-676 | one finished frame behind the buffer, payload within the frame size (promised id included), flag cleared exactly when something is left |
| `H2Fragment.Patch` | h2-intercept/src/frame/headers.rs:659-673 | length and flag are patched in place, nothing else |
| `H2Fragment.FramesCarryBlock` | h2-intercept/src/frame/headers.rs:529-540 | the frames of a block: one opening frame, CONTINUATIONs of its stream, END_HEADERS on the last only, payloads concatenating to the block |
| `H2HeaderBlock.ReportedItems` | h2-intercept/src/frame/headers.rs:681-719 | what is handed to the encoder stands for the pseudo headers in their order and then every field value under its name |
| `H2HeaderBlock.LoadRebuilds` | h2-intercept/src/frame/headers.rs:829-922 | loading the headers of a block that is below the size limit gives the block back, value order included |
| `H2HeaderBlock.LoadSplit` | h2-intercept/src/frame/headers.rs:829-922 | a list within the size limit loads to the same block when resumed anywhere, although the size is counted anew, and is malformed exactly where a part is |
| `H2HeaderBlock.OverSizeIff` | h2-intercept/src/frame/headers.rs:893-899 | a list without malformed headers is over size exactly when its whole size reaches the limit |
| `H2HeaderBlock.AppendSize` | h2-intercept/src/frame/headers.rs:945-971 | appending a field adds exactly its size to the recounted size |
| `H2Malformed.MalformedIff` | h2-intercept/src/frame/headers.rs:829-922 | a list within the limit is malformed exactly when it has a field that belongs to a connection, a `te` other than trailers, a pseudo header behind a regular field, or one twice |
| `H2Malformed.MalformedAnySize` | h2-intercept/src/frame/headers.rs:829-922 | of a list of any size only a repeated pseudo header may go unnoticed, and nothing else is taken for malformed |
| `H2Malformed.LoadHolds` | h2-intercept/src/frame/headers.rs:829-922 | whatever their order, the headers of any other list are all in the block, values of a name in order, and nothing else is |
| `H2Malformed.SizesAre` | h2-intercept/src/frame/headers.rs:969-971 | the size of a header is that of its name and value on the wire and 32 |
| `H2Reader.FramedRead.LoadBlock` | h2-intercept/src/frame/headers.rs:829-922 | decoding into a block does what the specification says, error order included |
| `H2Reader.FramedRead.OpenFrame` | h2-intercept/src/codec/framed_read.rs:119-171 | a HEADERS or PUSH_PROMISE frame: answer, error or partial state as specified |
| `H2Reader.FramedRead.ContinueFrame` | h2-intercept/src/codec/framed_read.rs:253-318 | a CONTINUATION frame: answer, error or partial state as specified |
| `H2Reader.FramedRead.ReadFrame` | h2-intercept/src/codec/framed_read.rs:96-327 | one frame of any kind refines the specification; while a block is open anything but a CONTINUATION of its stream, and at any other time every CONTINUATION, ends the connection |
| `H2Order.TakenInOrder` | h2-intercept/src/codec/framed_read.rs:96-118 | over every run of frames that are all taken, going by their heads alone: behind a HEADERS or PUSH_PROMISE without END_HEADERS come only CONTINUATIONs of its stream up to the first END_HEADERS, and no other CONTINUATION occurs |
| `H2Order.StopsOutOfOrder` | h2-intercept/src/codec/framed_read.rs:96-118 | at the first frame out of order, if not before, the reader stops with a protocol error |
| `H2Order.TakenFaultless` | h2-intercept/src/codec/framed_read.rs:173-251 | and nothing was wrong with any other frame among them |
| `H2Order.RefusedIffTooMuch` | h2-intercept/src/codec/framed_read.rs:287-305 | exactly which CONTINUATION of a block that is too large is refused as a compression error |
| `H2Order.NeverKeepsMore` | h2-intercept/src/codec/framed_read.rs:287-305 | of such a block, however many frames it goes on for, never more is kept than at first, the limit, or one frame |
| `H2Peer.PeerBlockAnswered` | h2-intercept/src/codec/framed_read.rs:119-171 | the answer to a block of any peer: a coding error ends the connection, a malformed list resets the stream, any other list arrives as a block that holds it |
| `H2Peer.HeadersRefusedIff` | h2-intercept/src/frame/headers.rs:145-206 | exactly which HEADERS frames cannot be loaded: stream zero, too short, too much padding, or a stream that depends on itself |
| `H2Peer.PromiseRefusedIff` | h2-intercept/src/frame/headers.rs:402-451 | exactly which PUSH_PROMISE frames cannot |
| `H2Peer.RefusalEnds` | h2-intercept/src/codec/framed_read.rs:119-146 | every one of them ends the connection, but for a stream that depends on itself, which alone is reset |
| `H2ReadBack.LoadOpening` | h2-intercept/src/frame/headers.rs:145-206 | an opening frame without padding or priority is loaded with its block untouched |
| `H2ReadBack.ReadContinuations` | h2-intercept/src/codec/framed_read.rs:253-318 | CONTINUATION frames complete a partial block wherever its octets were cut |
| `H2ReadBack.BlockReadBack` | h2-intercept/src/codec/framed_read.rs:96-171 | a block sent in frames cut anywhere comes back as the same frame: kind, stream, flags, pseudo headers, fields; tables agree |
| `H2ReadBack.BlockReadBackIff` | h2-intercept/src/frame/headers.rs:423-425 | read-back, exactly: the frames of a block give it back if and only if the opening frame is not a PUSH_PROMISE without an octet of its block |
| `H2ReadBack.EmptyPromiseRefused` | h2-intercept/src/frame/headers.rs:423-425 | such a PUSH_PROMISE, whatever follows it, is refused at its first frame with a connection error |
| `H2ReadBack.PaddingStripped` | h2-intercept/src/frame/headers.rs:145-206 | padding and a stream dependency are read and taken off, and a stream that depends on itself is refused |
| `H2ReadBack.PiecesJudgedAlikeIff` | h2-intercept/src/frame/headers.rs:911-919 | a block within the limit is judged alike whole and in two pieces, except exactly when the headers before the cut include a malformed one, the cut is inside a representation and the headers behind it load without a malformed one |
| `H2ReadBack.MalformedForgotten` | h2-intercept/src/frame/headers.rs:911-919 | a block for which this happens: refused whole, accepted in two pieces |
| `H2Wire.StreamCutsBack` | h2-intercept/src/codec/framed_write.rs:97-159 | the octets of completely written frames cut back into exactly those frames |
| `H2Writer.FramedWrite.Buffer` | h2-intercept/src/codec/framed_write.rs:226-305 | a frame is put behind all others as its encoding; an oversized DATA frame is refused and changes nothing |
| `H2Writer.FramedWrite.BufferData` | h2-intercept/src/codec/framed_write.rs:235-261 | small payloads are copied, large ones chained; the octets promised are the same |
| `H2Writer.FramedWrite.BufferBlock` | h2-intercept/src/codec/framed_write.rs:262-273 | the HPACK block is the encoder's, its first frame is buffered and the rest is left for CONTINUATION |
| `H2Writer.FramedWrite.WriteSome` | h2-intercept/src/codec/framed_write.rs:168-190 | one answer of the socket: it gets the first n octets of buffer and payload, or all if there are fewer, and those are what is no longer waiting; not ready and failed are the socket's own answers |
| `H2Writer.FramedWrite.HandOver` | h2-intercept/src/codec/framed_write.rs:168-190 | the octets the socket takes are the first ones waiting, buffer before payload, and the rest still waits |
| `H2Writer.FramedWrite.ContinueBlock` | h2-intercept/src/codec/framed_write.rs:214-221 | the next CONTINUATION carries as much of the block as the frame size then in force allows |
| `H2Writer.FramedWrite.WriteAll` | h2-intercept/src/codec/framed_write.rs:124-145 | writes until nothing waits or the socket refuses, and gives it all it offers to take |
| `H2Writer.FramedWrite.UnsetFrame` | h2-intercept/src/codec/framed_write.rs:202-224 | the next CONTINUATION follows directly, within the frame size then in force |
| `H2Writer.FramedWrite.Flush` | h2-intercept/src/codec/framed_write.rs:119-159 | under any pattern of partial writes what was sent is a prefix of the buffered frames' encodings in order, and all of it when the flush is done; the socket gets all it offers to take of what waited, and the flush stops at its first refusal and nowhere else |
| `H2Writer.FramedWrite.PollReady` | h2-intercept/src/codec/framed_write.rs:97-108 | a frame may be buffered only when no block or payload is open; nothing is written when there is room, and otherwise the socket's answers decide as in a flush |
| `H2Writer.FramedWrite.SetMaxFrameSize` | h2-intercept/src/codec/framed_write.rs:332-335 | the peer's frame size may change at any time, even inside a block |
| `H2Writer.SentIsPrefix` | h2-intercept/src/codec/framed_write.rs:119-159 | the prefix property from the accounting invariant |
| `H2Writer.FramedWrite.SetHeaderTableSize` | h2-intercept/src/codec/framed_write.rs:337-340 | a new table limit reaches the encoder as the coalescing of size updates says |
| `H2Writer.TellsTwice` | h2-intercept/src/codec/framed_write.rs:119-159 | writing goes on where it stopped: a run of successes followed by a run that ends is a run that ends the same way |
| `H2Reader.FramedRead.PollNext` | h2-intercept/src/codec/framed_read.rs:335-358 | frames are read until one is answered, and what is behind it is left |
| `H2Pipe.NextWire` | h2-intercept/src/codec/framed_read.rs:335-358 | the frames of one buffered frame, whatever follows them, make the reader answer it once, as it was, and leave the rest |
| `H2Pipe.ReadAppend` | h2-intercept/src/codec/framed_read.rs:335-358 | reading goes on where it stopped as long as there was no error |
| `H2Pipe.UnknownIgnored` | h2-intercept/src/codec/framed_read.rs:320-324 | a frame of an unknown kind between header blocks changes nothing, whatever comes before and after it |
| `H2Pipe.DataArrives` | h2-intercept/src/codec/framed_read.rs:201-206 | a DATA frame arrives with its flags, its stream and its payload |
| `H2Run.Transfer` | h2-intercept/src/codec/framed_read.rs:335-358 | end to end through both objects, over any run of frames and changing limits (the table of either side, the frame size) and any socket: if everything gets out, the reader gives every frame back once, in order, as it was, and both tables agree; otherwise the socket refused or a DATA frame was too large |
| `H2Run.Send` | h2-intercept/src/codec/framed_write.rs:97-159 | the writer: on a completed run the octets sent cut back into exactly the frames of the items put |
| `H2Run.SendItem` | h2-intercept/src/codec/framed_write.rs:97-116 | one frame: room is made by flushing, then it is buffered behind all others |
| `H2Run.Receive` | h2-intercept/src/codec/framed_read.rs:335-358 | the reader: given those frames it answers every item, with nothing left over |
| `H2Run.CarryExtended` | h2-intercept/src/codec/framed_write.rs:202-224 | frames that are continued later still carry what they did |
| `H2Run.RunReadBack` | h2-intercept/src/codec/framed_read.rs:96-327 | the same of the frames alone, given all at once, when the decoder is allowed no new limit on the way |
| `TcpSequence.KeyDistance` | crates/net_decode/src/tcp_reassemble.rs:458-523 | within one turn, distance between wrapping sequence numbers is distance between offsets |
| `TcpSequence.PeekIsNearest` | crates/net_decode/src/tcp_reassemble.rs:474-502 | the cursor sees the key nearest ahead, going round |
| `TcpSequence.PeekNextIsNearest` | crates/net_decode/src/tcp_reassemble.rs:474-502 | past a key the cursor sees the nearest other key |
| `TcpReassemble.SeesAfterRemove` | crates/net_decode/src/tcp_reassemble.rs:518-523 | after removing the segment at `lowest` the cyclic successor is the nearest segment left |
| `TcpReassemble.TcpReorderBuffer.Export` | crates/net_decode/src/tcp_reassemble.rs:131-148 | the export loop, whatever the map holds: the cursor always stands on a key when it removes one, and the loop delivers what its specification does |
| `TcpReassemble.TcpReorderBuffer.Ingest` | crates/net_decode/src/tcp_reassemble.rs:122-148 | any segment within the asserted window is kept, then everything that can be is exported |
| `TcpReassemble.DrainRefines` | crates/net_decode/src/tcp_reassemble.rs:131-148 | over pieces of a stream the loop over sequence numbers delivers what draining over stream offsets does |
| `TcpReassemble.IngestRefines` | crates/net_decode/src/tcp_reassemble.rs:122-148 | a segment of the stream is within the asserted window and is taken in as its offset says, across any number of wraps |
| `TcpReassemble.TcpReorderBuffer.Receive` | crates/net_decode/src/tcp_reassemble.rs:122-148 | any order of arrivals: delivered data is a prefix of the stream, and all of it with an empty buffer once all has arrived and no segment replaced a longer one |
| `TcpReorder.DrainDelivers` | crates/net_decode/src/tcp_reassemble.rs:131-148 | what is drained is the stream between the old and the new low mark, and no segment at `lowest` is left |
| `TcpReorder.RunDeliversPrefix` | crates/net_decode/src/tcp_reassemble.rs:122-148 | over any run of segments that fit the buffer, pure acknowledgements included, the delivered data is a prefix of the stream |
| `TcpReorder.RunCovers` | crates/net_decode/src/tcp_reassemble.rs:122-148 | every octet that arrived is delivered or buffered, if no segment replaces a longer one |
| `TcpReorder.RunComplete` | crates/net_decode/src/tcp_reassemble.rs:122-148 | once every octet has arrived the whole stream is delivered and the buffer is empty |
| `TcpReorder.LosesNothingIff` | crates/net_decode/src/tcp_reassemble.rs:122-148 | exactly when a segment loses nothing: it is at least as long as the one it replaces, if any |
| `TcpReorder.ShorterLosesLast` | crates/net_decode/src/tcp_reassemble.rs:122-130 | otherwise the last octet of the replaced segment is covered no more |
| `TcpReorder.EmptySegmentLosesData` | crates/net_decode/src/tcp_reassemble.rs:122-130 | a stream of which an octet is lost this way for good although all of it arrived |
| `TlsHandshake.RetryIsPure` | crates/net_decode/src/tls.rs:241-308 | a message that finds a key missing changes nothing but the mark, so it can be tried again; otherwise the flow is unblocked |
| `TlsHandshake.MoreKeysSame` | crates/net_decode/src/tls.rs:365-408 | any outcome but a missing key stays the same when more keys arrive |
| `TlsHandshake.IdealExtends` | crates/net_decode/src/tls.rs:633-691 | a run of messages that all acted would have acted the same with more keys known |
| `TlsMeaning.IdealStands` | crates/net_decode/src/tls.rs:190-415 | a flow stands where its messages say: everything of the application and the protocols agreed on is passed on once, in order, with its direction, and nothing else; each secret installed is the one the key log gives for that connection and that side |
| `TlsMeaning.LastStops` | crates/net_decode/src/tls.rs:241-308 | exactly which message waits for a key, and which ends the program |
| `TlsFlow.FeedExhausts` | crates/net_decode/src/tls.rs:721-762 | the deframe loop leaves no complete record unless it stopped before, and only octets it was given |
| `TlsQueue.FeedOne` | crates/net_decode/src/tls.rs:721-762 | one record: octets move from input to message, the message acts, fails or blocks, as the specification says |
| `TlsQueue.FeedLoop` | crates/net_decode/src/tls.rs:721-762 | the deframe loop conserves octets and ends where and how its specification does |
| `TlsQueue.ChunkWaits` | crates/net_decode/src/tls.rs:706-708 | a chunk for a blocked flow waits at the end of the queue, no octet lost |
| `TlsQueue.ChunkReplayed` | crates/net_decode/src/tls.rs:506-511 | a queued chunk moves to the input, no octet lost |
| `TlsQueue.HeldAgain` | crates/net_decode/src/tls.rs:512-516 | the held message, tried again, acts once or leaves everything as it was |
| `TlsTracker.InnerOnData` | crates/net_decode/src/tls.rs:693-764 | a chunk is read as specified, or handed back exactly because the flow is blocked or meets a message without keys; a panic is one of the specification |
| `TlsTracker.ProcessQueued` | crates/net_decode/src/tls.rs:500-518 | one entry of the queue is replayed as specified, or handed back for the front of the queue |
| `TlsTracker.TLSFlowTracker.Enqueue` | crates/net_decode/src/tls.rs:493-498 | appends to the queue of a client random |
| `TlsTracker.TLSFlowTracker.OnData` | crates/net_decode/src/tls.rs:522-535 | arrival keeps the invariant of every flow, touches only one and takes it exactly where the specification does; it ends the program exactly when the specification panics; other ports are ignored |
| `TlsTracker.TLSFlowTracker.ReplayQueue` | crates/net_decode/src/tls.rs:547-559 | the replay loop does what its specification does, and ends with an empty queue or with a message that really lacks a key at its front |
| `TlsTracker.TLSFlowTracker.OnSideData` | crates/net_decode/src/tls.rs:537-562 | new keys keep the invariant, touch only their flow, take it exactly where the specification does, and leave nothing queued that could have gone on |
| `TlsTracker.TLSFlowTracker.KeysMayArrive` | crates/net_decode/src/tls.rs:542-547 | the key database may grow between calls without breaking the invariant |
| `TlsTracker.BlockedIffQueued` | crates/net_decode/src/tls.rs:522-562 | a flow is blocked on a client random exactly when its queue is not empty; then the head is the blocked message and only raw chunks follow |
| `TlsTracker.EachMessageActsOnce` | crates/net_decode/src/tls.rs:500-562 | per direction no octet is lost, repeated or reordered; each message found acts once, in order, save one that waits; state, output and installed secrets are those that the messages say |
| `TlsLateIff.KeysNeverMatterIff` | crates/net_decode/src/tls.rs:500-562 | exactly when it makes no difference how and when the keys come, for every prefix of the input: with all keys, no message that a missing key can hold leaves a complete record behind it |
| `TlsLate.SparseSuffices` | crates/net_decode/src/tls.rs:500-562 | then every way in which keys can arrive, with any number of replays, leads to the same connection once all are known and the queue is replayed |
| `TlsLate.RunInStep` | crates/net_decode/src/tls.rs:522-562 | at every moment of such a run the connection is one that a replay with all keys takes to where a flow with all keys is |
| `TlsLate.FeedLate` | crates/net_decode/src/tls.rs:721-762 | one chunk with some of the keys: the same as with all, or it stops at a message that, tried again with all, ends up there |
| `TlsLate.KeysTwice` | crates/net_decode/src/tls.rs:547-559 | replaying a queue with some of the keys and then with all is replaying it with all |
| `TlsLateIff.BrokenMatters` | crates/net_decode/src/tls.rs:506-516 | otherwise there are keys which, followed by all keys after the chunk that breaks the condition, lead elsewhere |
| `TlsLateSample.LateKeysLoseOutput` | crates/net_decode/src/tls.rs:396-402 | an input of that kind: extensions behind a held ServerHello are passed on with early keys and never read with late ones |
| `H2Events.PollAnswers` | h2-intercept/src/proto/connection.rs:252-535 | every event a poll reads has its effect: a connection error found in it is announced with its reason and the connection closes, the end of the stream closes it, an I/O error fails the poll, and the last GOAWAY is remembered; only an idle close after a refusal may replace an announcement |
| `H2Events.OverwrittenIff` | h2-intercept/src/proto/connection.rs:269-282 | exactly when one step of a connection that must close changes what it announces: its GOAWAY is refused, no streams are left, and the peer has said GOAWAY |
| `H2Events.AnnouncementReplaced` | h2-intercept/src/proto/connection.rs:269-282 | a connection to which this happens: a protocol error is announced as no error |
| `H2Shutdown.PollNeeded` | h2-intercept/src/proto/connection.rs:269-282 | a connection that stays open, although the socket refused nothing, still has streams, or neither side has said GOAWAY: otherwise it closes |
| `H2Shutdown.RunOrderly` | h2-intercept/src/proto/connection.rs:564-586 | over every run: the shutdown PING goes out behind the GOAWAY for all streams, the id is narrowed only once it has been answered, and no connection closes at once without a cause |
| `H2Shutdown.RunReads` | h2-intercept/src/proto/connection.rs:501-507 | over every run the GOAWAY remembered is the last one that was taken |
| `H2Ledger.RunBalanced` | h2-intercept/src/proto/settings.rs:38-81 | over every run a connection that is not closing has had exactly one acknowledgement for each SETTINGS it sent, but for the one outstanding |
| `H2Promise.RunPromises` | h2-intercept/src/proto/connection.rs:252-304 | over every run: answers and events are used in order, frames taken in are those that arrived, frames written only grow; false only for an I/O error; a connection that is closing takes in nothing more; requests to go away are acted on; after a poll to which the socket refused nothing, an open connection owes nothing |
| `H2Promise.PollPromises` | h2-intercept/src/proto/connection.rs:252-304 | every poll ends closed, waits because the socket refused or because nothing is owed and everything was read up to the first silence, or fails for an I/O error that was seen; a connection that must close is closed unless the socket refuses; it closes at once only for idleness or a fault seen, and leaves the open state only once its GOAWAY is out, the peer hung up or a fault is the one announced |
| `H2Promise.PollAsks` | h2-intercept/src/proto/connection.rs:252-304 | a poll to which the socket refuses nothing asks at most seven questions for each event, and 21 more |
| `H2Promise.Poll2World` | h2-intercept/src/proto/connection.rs:306-355 | the same of the inner loop: causes of its ends, what it keeps, and six questions for each event |
| `H2Promise.RoundWorld` | h2-intercept/src/proto/connection.rs:306-355 | the same of one round: at most six questions and one event |
| `H2Promise.ClosesInOne` | h2-intercept/src/proto/connection.rs:318-332 | a connection that must close does so in one round, unless the socket refuses or fails |
| `H2Promise.ReadySends` | h2-intercept/src/proto/connection.rs:188-202 | sending what is owed decides nothing, reads nothing, and leaves nothing owed when it is done |
| `H2Promise.HandleWorld` | h2-intercept/src/proto/connection.rs:418-473 | what an outcome of the inner loop leads to has a cause and undoes no decision |
| `H2Codec.AdvancesTwice` | h2-intercept/src/proto/connection.rs:306-355 | using answers and events is transitive, and so are the faults, ends, refusals and silences seen |
| `H2Connection.Connection.Drive` | h2-intercept/src/proto/connection.rs:252-304 | any run of polls and user calls is the run on values, so it keeps what that promises: shutdowns are in good order, SETTINGS and acknowledgements balance; until an I/O error no assertion fires, GOAWAY ids never rise and the last one decided is the last one written or still pending, and PINGs and SETTINGS are answered in order and once |
| `H2Connection.Connection.Poll` | h2-intercept/src/proto/connection.rs:252-304 | one poll is the poll on values, keeps its promise and answers every event it has read; it keeps the invariant unless the socket fails |
| `H2Connection.Connection.Poll2` | h2-intercept/src/proto/connection.rs:306-355 | the inner loop is the loop on values: it waits only if the socket refused or if nothing is owed and all that came was read; every other end has its cause; at most six questions for each event and six more |
| `H2Connection.Connection.PollOpen` | h2-intercept/src/proto/connection.rs:262-290 | one step of an open connection is the step on values: it goes on, ends, waits or starts to close, each for its cause |
| `H2Connection.Connection.Round` | h2-intercept/src/proto/connection.rs:306-355 | one round is the round on values: GOAWAY first, then what is owed, then one frame; every end has its cause |
| `H2Connection.Connection.PollReady` | h2-intercept/src/proto/connection.rs:188-202 | outcome, what stays owed and what is written are functions of the socket's answers; when ready, nothing is owed: no PONG, no SETTINGS ack, no SETTINGS or PING of ours |
| `H2Connection.Connection.PollGoAway` | h2-intercept/src/proto/connection.rs:208-210 | a pending GOAWAY is written once if the next answer is ready, kept if it is not, and lost to an I/O error; nothing is asked if none is pending |
| `H2Connection.Connection.RecvFrame` | h2-intercept/src/proto/connection.rs:475-535 | a frame is taken only when nothing is owed and the connection is not closing; state and fault are those of the frame on values, whose effects over a poll `H2Events.PollAnswers` gives; the shutdown PING's ack sends the final GOAWAY |
| `H2Connection.Connection.HandlePoll2Result` | h2-intercept/src/proto/connection.rs:418-473 | closing, announcing a new error, or going on, by the kind of outcome, as on values |
| `H2Connection.Connection.CloseNow` | h2-intercept/src/proto/connection.rs:397-407 | announces the last stream processed, never above an id announced before |
| `H2Connection.Connection.GoAwayFromUser` | h2-intercept/src/proto/connection.rs:409-416 | the same on the user's demand |
| `H2Connection.Connection.GoAwayGracefully` | h2-intercept/src/proto/connection.rs:564-586 | announces the largest id and sends a PING, unless already going away |
| `H2Connection.Streams.Recv` | h2-intercept/src/proto/streams/recv.rs:166-167 | the stream layer never processes an id above the last one announced |
| `H2Connection.GoAwayWritten` | h2-intercept/src/proto/go_away.rs:120-147 | writing the GOAWAY last decided keeps the ids from rising |
| `H2Connection.SettingsAdvanced` | h2-intercept/src/proto/settings.rs:95-150 | a settings exchange adds one ack per remote SETTINGS and leaves the other logs alone |
| `H2GoAway.GoAway.Schedule` | h2-intercept/src/proto/go_away.rs:53-69 | enqueues a GOAWAY whose id does not rise |
| `H2GoAway.GoAway.GoAwayNow` | h2-intercept/src/proto/go_away.rs:71-81 | a GOAWAY equal to the last one is not sent twice |
| `H2GoAway.GoAway.SendPending` | h2-intercept/src/proto/go_away.rs:120-147 | writes what is pending once, blocked or broken exactly as the socket answers; a connection that must close has a reason to report |
| `H2PingPong.PingPong.RecvPing` | h2-intercept/src/proto/ping_pong.rs:97-135 | a PING is remembered for its answer; only the ack of the shutdown PING ends the wait for it |
| `H2PingPong.PingPong.SendPendingPong` | h2-intercept/src/proto/ping_pong.rs:138-158 | the answer is written once, or kept, exactly as the socket answers |
| `H2PingPong.PingPong.SendPendingPing` | h2-intercept/src/proto/ping_pong.rs:161-198 | the shutdown PING is written once, otherwise at most a user PING, exactly as the socket answers |
| `H2Settings.Settings.RecvSettings` | h2-intercept/src/proto/settings.rs:38-81 | an ack applies what is outstanding and is an error otherwise; anything else waits to be acknowledged |
| `H2Settings.Settings.SendSettings` | h2-intercept/src/proto/settings.rs:83-93 | refused while earlier settings are unacknowledged |
| `H2Settings.Settings.PollSend` | h2-intercept/src/proto/settings.rs:95-150 | acknowledges, then applies, the peer's settings once, then sends ours; how it ends is a function of the socket's answers |
| `UserPings.StepKeepsInv` | h2-intercept/src/proto/ping_pong.rs:161-279 | every atomic step of either thread keeps the protocol's invariant |
| `UserPings.RunKeepsInv` | h2-intercept/src/proto/ping_pong.rs:161-279 | so does every interleaving |
| `UserPings.StoreOverwritesNothing` | h2-intercept/src/proto/ping_pong.rs:180-192 | the store behind a separate load replaces exactly the value the load saw |
| `UserPings.ClosedAbsorbs` | h2-intercept/src/proto/ping_pong.rs:283-286 | once closed, always closed, and nothing succeeds any more |
| `UserPings.PingsAlternate` | h2-intercept/src/proto/ping_pong.rs:210-255 | successful sends lead successful polls by at most one, and each poll follows a PING written after the latest send |
| `UserPings.UndisturbedRound` | h2-intercept/src/proto/ping_pong.rs:210-279 | a round trip that nothing disturbs goes all the way round and leaves the cell as it was |
| `KeyDb.LabelRoundTrip` | crates/net_decode/src/key_db.rs:61-93 | every label parses back to its secret type |
| `KeyDb.LabelsAre` | crates/net_decode/src/key_db.rs:62-93 | each label stands for the secret the key log format gives it |
| `KeyDb.HexRoundTrip` | crates/net_decode/src/key_db.rs:147-148 | hexadecimal is read back |
| `KeyDb.EitherCase` | crates/net_decode/src/key_db.rs:131-165 | hexadecimal is written in lower case and read in either |
| `KeyDb.LineRoundTrip` | crates/net_decode/src/key_db.rs:136-151 | a printed line parses to its entry |
| `KeyDb.LineIsRead` | crates/net_decode/src/key_db.rs:131-165 | every line of the format is read as what it says |
| `KeyDb.OnlyLinesAreRead` | crates/net_decode/src/key_db.rs:131-165 | and nothing else is read at all |
| `KeyDb.CommentIgnored` | crates/net_decode/src/key_db.rs:137-139 | a comment never changes what is loaded |
| `KeyDb.LoadPrinted` | crates/net_decode/src/key_db.rs:131-176 | loading a printed log merges every connection's secrets, in order, behind what was there |
| `KeyDb.ReloadRestores` | crates/net_decode/src/key_db.rs:166-176 | printing and loading into an empty database restores the same map, in any iteration order |
| `KeyDb.SecretsStay` | crates/net_decode/src/key_db.rs:106-129 | a new secret never changes an answer already given |
| `KeyDb.KeyDB.LookupSecret` | crates/net_decode/src/key_db.rs:106-115 | the first secret of the type |
| `KeyDb.KeyDB.OnSecret` | crates/net_decode/src/key_db.rs:117-129 | appends to the connection's secrets; answers already given stay |
| `KeyDb.KeyDB.LoadKeyLog` | crates/net_decode/src/key_db.rs:131-164 | adds the entries of the lines that parse, in order, and reports them |
| `KeyDb.KeyDB.ToKeyLog` | crates/net_decode/src/key_db.rs:166-176 | writes the log; loading it into an empty database restores this one |

## Left out

- Huffman coding, the hash function and the `http` crate's validation: parameters, as said above.
- Bit operations are written as arithmetic, and size counters are unbounded; positions in the table wrap at 2^64 and sequence numbers at 2^32 as in the source.
- Header iteration (`Iter::next`) appears as the list of items it yields, and `http::HeaderMap` as its groups of values in order of first arrival.
- H2HeaderBlock.LoadRebuilds: the never-index mark of a value is not carried over, because decoding does not recover it.
- SETTINGS, PING, GOAWAY, WINDOW_UPDATE, RST_STREAM, PRIORITY and DATA payloads on the wire: the writer takes their octets and the reader passes them on; their layouts would only add easy members.
- H2Run.Transfer: a PUSH_PROMISE is put only while frames hold more than its promised id; without room for the id the source panics, and with room for nothing else the peer refuses the frame (`H2ReadBack.BlockReadBackIff`).
- Streams, flow control and prioritisation: only the facts the control loop needs are stated.
- The TCP handshake and FIN handling, and retransmissions that start below the lowest missing octet.
- TLS cryptography, the deframer and message parsing.
- TlsTracker.TLSFlowTracker.OnData: says that the source's panics (a client message before the ServerHello, a TLS 1.2 suite) end the program, and nothing of the flows afterwards.
- HTTP/1 decoding, packet anonymisation, the DevTools event buffer, capture, namespaces, hooks and gRPC.
- I/O errors end the guarantees of the control loop; wakers, timers, tracing and debug output are not modelled.
