# RemoteIndex client: URL parsing and the write-buffer protocol

This project models the client half of the Vision Workbench remote platefile
index (`vw::platefile::RemoteIndex`) and proves properties of the model in
Dafny.

The client talks to a remote index service. It holds the platefile id and
index header that the service returned when the index was opened or created. It
does not send tile-metadata writes (`write_update`) one at a time; it buffers
them in a FIFO write queue. The queue is flushed as a single `MultiWriteUpdate`
batch in three cases:

- when ten entries are pending;
- before every operation that reads or finalises index state;
- on destruction.

The model has three parts:

- **`parse_url`** (`plate_url.dfy`): a pure function from a `pf://` URL to host, port, exchange and platefile name, or an error.
- **The library routines it uses** (`strings.dfy`): `boost::split` on one separator character, and `boost::lexical_cast<int>`.
- **The client** (`remote_index.dfy`): class `RemoteIndex`.
  - Its fields are the write queue and the identity and header fields, which are set once by a constructor.
  - The remote service is an abstract channel. A ghost `log` records every request sent, oldest first, as a value of the `Request` datatype (`plate_messages.dfy`).
  - Each operation takes the service's replies as parameters. A `Raised` reply stands for an exception thrown by the remote call.
  - Each method is proved to move the client's state (platefile id, queue, log) exactly as a pure transition function in `write_protocol.dfy` says: `Flush`, `Push` (for `write_update`) and `Call` (for every other operation).
  - Lemmas about those functions state the protocol's guarantees. No write is dropped before it is put into a `MultiWriteUpdate` request, and none is reordered or duplicated. A batch whose call raised is not resent. Fewer than ten writes are pending when control returns to the caller. Every request after the handshake carries the platefile id. Every flushing operation is sent only after all writes handed to the client so far have gone out in `MultiWriteUpdate` requests.

Files and modules: `wrappers.dfy` (Wrappers), `strings.dfy` (Strings),
`plate_url.dfy` (PlateUrl), `plate_messages.dfy` (PlateMessages),
`write_protocol.dfy` (WriteProtocol), `remote_index.dfy` (RemoteIndexClient).

Two behaviours of the code worth noting:

- `flush_write_queue` on an empty queue is not a no-op. It still sends a `MultiWriteUpdate` with an empty batch (`WriteProtocol.Flush`, `RemoteIndex.FlushWriteQueue`).
- A flush that raises has already emptied the queue. The entries were popped while the batch was built, so they are not retried.

## Model

| member | source | states |
|---|---|---|
| Strings.Split | src/vw/Plate/RemoteIndex.cc:29-30 | `boost::split` on one character: at least one token, and no token contains the separator |
| Strings.SplitLength | src/vw/Plate/RemoteIndex.cc:29-33 | the number of segments is one more than the number of separators |
| Strings.JoinSplit | src/vw/Plate/RemoteIndex.cc:29-30 | splitting loses nothing: joining the tokens with the separator gives back the input |
| Strings.SplitJoin | src/vw/Plate/RemoteIndex.cc:29-30 | splitting a join of separator-free tokens gives back exactly those tokens |
| Strings.SplitAtSeparator | src/vw/Plate/RemoteIndex.cc:29-30 | a separator between two strings splits them independently (tokens of the left then of the right) |
| Strings.SplitNoSeparator | src/vw/Plate/RemoteIndex.cc:46-51 | a string without the separator is a single token, itself |
| Strings.SplitKeepsAbsent | src/vw/Plate/RemoteIndex.cc:46-47 | a character absent from the input is absent from every token (so a host split from a segment has no '/') |
| Strings.LexicalCastInt | src/vw/Plate/RemoteIndex.cc:57 | `lexical_cast<int>` succeeds exactly on an optional sign followed by one or more digits whose value (negated after '-') lies inside the 32-bit range, and then returns that value |
| Strings.LexicalCastPlus | src/vw/Plate/RemoteIndex.cc:57 | a leading '+' before unsigned text does not change what `lexical_cast<int>` makes of it |
| Strings.LexicalCastMinus | src/vw/Plate/RemoteIndex.cc:57 | a leading '-' before a digit string gives the negated value when it is at least the 32-bit minimum, and a failed cast otherwise |
| Strings.DigitsValueLeadingZero | src/vw/Plate/RemoteIndex.cc:57 | a leading zero does not change the value of a digit string |
| Strings.LexicalCastLeadingZero | src/vw/Plate/RemoteIndex.cc:57 | leading zeros do not change what `lexical_cast<int>` makes of a digit string (so `0080` reads as 80) |
| Strings.FormatNat | src/vw/Plate/RemoteIndex.cc:57 | the decimal rendering used to state the port round trip is a non-empty digit string |
| Strings.DigitsValueFormatNat | src/vw/Plate/RemoteIndex.cc:57 | reading back the decimal rendering of a natural number gives that number |
| Strings.LexicalCastFormatInt | src/vw/Plate/RemoteIndex.cc:57 | `lexical_cast<int>` reads back every 32-bit integer written in decimal, negative ones included |
| PlateUrl.HasScheme | src/vw/Plate/RemoteIndex.cc:24 | `url.find("pf://") == 0` holds exactly when the URL has `pf://` as a prefix |
| PlateUrl.ParseUrl | src/vw/Plate/RemoteIndex.cc:22-70 | the not-a-pf-URL ArgumentErr is returned exactly when the URL does not begin with `pf://`; on success exchange and name contain no '/', the host no '/' or ':', and the port is a 32-bit value |
| PlateUrl.ParseUrlDefaultHost | src/vw/Plate/RemoteIndex.cc:33-38 | `pf://ex/name` gives host `localhost`, port 5672, exchange `ex`, name `name` |
| PlateUrl.ParseUrlHostOnly | src/vw/Plate/RemoteIndex.cc:41-53 | `pf://host/ex/name` with no ':' in host gives that host, port 5672, exchange = segment 1, name = segment 2 |
| PlateUrl.ParseUrlHostPort | src/vw/Plate/RemoteIndex.cc:41-58 | `pf://host:p/ex/name` gives the integer `lexical_cast` makes of `p` as port, or the cast's failure when `p` is not a 32-bit integer |
| PlateUrl.ParseUrlTooManyColons | src/vw/Plate/RemoteIndex.cc:59-62 | a host segment with two or more ':' is the host-and-port ArgumentErr |
| PlateUrl.ParseUrlSegmentCount | src/vw/Plate/RemoteIndex.cc:64-66 | for a `pf://` URL, the segment-count ArgumentErr is returned if and only if the text after the scheme has neither one nor two '/' |
| PlateUrl.ParseFormatUrl | src/vw/Plate/RemoteIndex.cc:40-58 | round trip: an endpoint with clean fields and a 32-bit port, written as `pf://host:port/ex/name`, parses back to itself |
| WriteProtocol.Flush | src/vw/Plate/RemoteIndex.cc:229-238 | a flush keeps the platefile id and every earlier request, sends exactly one MultiWriteUpdate holding the whole queue in order (an empty one for an empty queue), and leaves the queue empty |
| WriteProtocol.Push | src/vw/Plate/RemoteIndex.cc:216-227 | write_update keeps the earlier log; below ten pending it only appends the stamped entry at the back; on reaching ten it sends all ten, new entry last, as one batch; fewer than ten are ever left pending |
| WriteProtocol.Call | src/vw/Plate/RemoteIndex.cc:156-169 | a non-flushing operation sends only its request and keeps the queue; a flushing one first sends the whole queue as a batch and empties it, then sends its request last, or sends nothing more when the flush raised |
| WriteProtocol.BatchedConcat | src/vw/Plate/RemoteIndex.cc:229-238 | the writes carried by a log are those carried by its parts, in order |
| WriteProtocol.BatchedSnoc | src/vw/Plate/RemoteIndex.cc:229-238 | sending one request adds its batch, and only if it is a batch, to the writes the log has carried |
| WriteProtocol.FlushConserves | src/vw/Plate/RemoteIndex.cc:229-238 | a flush empties the queue and appends exactly the queue's entries, in FIFO order, to the writes the log has carried |
| WriteProtocol.FlushKeepsStamps | src/vw/Plate/RemoteIndex.cc:229-238 | a flush of a correctly stamped state, whatever its queue size, re-establishes the client invariant |
| WriteProtocol.FlushBeforeRequest | src/vw/Plate/RemoteIndex.cc:154-169 | for the seven flushing operations whose flush replied, the earlier log is kept, exactly two requests follow it (the MultiWriteUpdate holding the old queue in order, then the operation's own request), every pending write has then been carried, and the queue is left empty |
| WriteProtocol.NoFlushBeforeRequest | src/vw/Plate/RemoteIndex.cc:203-212 | write_request, transaction_request and transaction_cursor leave the queue as it is and send no write |
| WriteProtocol.ApplyConserves | src/vw/Plate/RemoteIndex.cc:216-238 | any single operation adds to "writes sent + writes queued" exactly the update it is handed, and keeps the platefile id |
| WriteProtocol.ApplyKeepsInv | src/vw/Plate/RemoteIndex.cc:216-227 | every operation keeps fewer than ten entries pending and every entry and request stamped with the platefile id |
| WriteProtocol.RunConserves | src/vw/Plate/RemoteIndex.cc:216-238 | over any sequence of operations, the writes sent in `MultiWriteUpdate` requests followed by those still queued are exactly the writes handed to write_update, in call order; a sent batch counts even when its call raised, since its entries were already popped and are not resent |
| WriteProtocol.RunKeepsInv | src/vw/Plate/RemoteIndex.cc:216-227 | over any sequence of operations the queue never holds ten entries when control returns, and all requests stay stamped |
| WriteProtocol.ReadYourWrites | src/vw/Plate/RemoteIndex.cc:154-198 | after open/create and any operations, a flushing request is sent only after the log has carried every write update handed to the client, in call order; "carried" includes a batch whose call raised, which is not resent |
| WriteProtocol.QueuedBelowThreshold | src/vw/Plate/RemoteIndex.cc:221-226 | while fewer than ten are pending, write_update sends nothing and the entries wait in call order |
| RemoteIndexClient.Answer | src/vw/Plate/RemoteIndex.cc:166-169 | an operation succeeds exactly when its remote call replied: it returns the reply's value, or fails with the exception the call raised |
| RemoteIndexClient.AfterFlush | src/vw/Plate/RemoteIndex.cc:156-169 | a flushing operation succeeds exactly when both the flush and its own call replied: it returns its own reply's value; a raised flush's exception wins, otherwise the call's exception is passed on |
| RemoteIndexClient.PairReplies | src/vw/Plate/RemoteIndex.cc:189-197 | the result has one element per reply transaction id, and the i-th pairs `transaction_ids[i]` with `index_records[i]` |
| RemoteIndexClient.CollectTileHeaders | src/vw/Plate/RemoteIndex.cc:275-279 | the result is the reply's tile headers, all of them, in order |
| RemoteIndexClient.RemoteIndex.Open | src/vw/Plate/RemoteIndex.cc:90-101 | only an OpenRequest carrying the platefile name is sent; id, header and names (and so every header accessor) come from the reply; the queue is empty |
| RemoteIndexClient.RemoteIndex.Create | src/vw/Plate/RemoteIndex.cc:125-139 | only a CreateRequest with the caller's header, its platefile id zeroed, is sent; the reply's header replaces the caller's |
| RemoteIndexClient.RemoteIndex.OpenUrl | src/vw/Plate/RemoteIndex.cc:73-104 | a URL parse error fails before anything is sent; a raised open fails with no object; otherwise a fresh valid client as Open describes |
| RemoteIndexClient.RemoteIndex.CreateUrl | src/vw/Plate/RemoteIndex.cc:107-142 | the same for the creating constructor |
| RemoteIndexClient.RemoteIndex.Close | src/vw/Plate/RemoteIndex.cc:146-148 | the destructor flushes whatever is still queued |
| RemoteIndexClient.RemoteIndex.Header | src/vw/Plate/RemoteIndex.cc:301-303 | `index_header()` returns the stored header; that this is the header in the service's reply is stated by the contracts of `RemoteIndex.Open` and `RemoteIndex.Create` |
| RemoteIndexClient.RemoteIndex.PlatefileName | src/vw/Plate/RemoteIndex.cc:297-299 | `platefile_name()` returns the stored full platefile name, not the short one; `RemoteIndex.Open` and `RemoteIndex.Create` state that it is the reply's full name |
| RemoteIndexClient.RemoteIndex.Version | src/vw/Plate/RemoteIndex.cc:293-295 | `version()` is the version field of the header `index_header()` returns; `RemoteIndex.Open` and `RemoteIndex.Create` state that it equals the reply header's version field |
| RemoteIndexClient.RemoteIndex.TileSize | src/vw/Plate/RemoteIndex.cc:305-307 | `tile_size()` is the tile-size field of that header; `RemoteIndex.Open` and `RemoteIndex.Create` state that it equals the reply header's tile-size field |
| RemoteIndexClient.RemoteIndex.TileFiletype | src/vw/Plate/RemoteIndex.cc:309-311 | `tile_filetype()` is the tile-filetype field of that header; `RemoteIndex.Open` and `RemoteIndex.Create` state that it equals the reply header's tile-filetype field |
| RemoteIndexClient.RemoteIndex.PixelFormat | src/vw/Plate/RemoteIndex.cc:313-315 | `pixel_format()` is the pixel-format field of that header; `RemoteIndex.Open` and `RemoteIndex.Create` state that it equals the reply header's pixel-format field |
| RemoteIndexClient.RemoteIndex.ChannelType | src/vw/Plate/RemoteIndex.cc:317-319 | `channel_type()` is the channel-type field of that header; `RemoteIndex.Open` and `RemoteIndex.Create` state that it equals the reply header's channel-type field |
| RemoteIndexClient.RemoteIndex.FlushWriteQueue | src/vw/Plate/RemoteIndex.cc:229-238 | exactly one MultiWriteUpdate is sent, holding the old queue front to back (an empty batch for an empty queue), and the queue is left empty |
| RemoteIndexClient.RemoteIndex.WriteUpdate | src/vw/Plate/RemoteIndex.cc:216-227 | one entry stamped with the platefile id is appended at the back; reaching ten pending entries flushes all of them; fewer than ten remain |
| RemoteIndexClient.RemoteIndex.ReadRequest | src/vw/Plate/RemoteIndex.cc:154-170 | flushes, then sends a ReadRequest with the client's id and the arguments; returns the reply's record, or the first exception |
| RemoteIndexClient.RemoteIndex.MultiReadRequest | src/vw/Plate/RemoteIndex.cc:172-198 | flushes, then sends the request and returns one (transaction id, record) pair per transaction id, in reply order |
| RemoteIndexClient.RemoteIndex.WriteRequest | src/vw/Plate/RemoteIndex.cc:203-212 | sends a WriteRequest without flushing (queue unchanged) and returns the reply's blob id |
| RemoteIndexClient.RemoteIndex.WriteComplete | src/vw/Plate/RemoteIndex.cc:241-252 | flushes, then sends a WriteComplete with the blob id and offset |
| RemoteIndexClient.RemoteIndex.ValidTiles | src/vw/Plate/RemoteIndex.cc:254-280 | flushes, then sends the region as min corner, width and height, and returns the reply's tile headers in order |
| RemoteIndexClient.RemoteIndex.NumLevels | src/vw/Plate/RemoteIndex.cc:282-291 | flushes, then sends a NumLevelsRequest and returns the reply's level count |
| RemoteIndexClient.RemoteIndex.TransactionRequest | src/vw/Plate/RemoteIndex.cc:325-337 | sends description and override id without flushing and returns the reply's transaction id |
| RemoteIndexClient.RemoteIndex.TransactionComplete | src/vw/Plate/RemoteIndex.cc:341-352 | flushes, then sends the id and the update-read-cursor flag |
| RemoteIndexClient.RemoteIndex.TransactionFailed | src/vw/Plate/RemoteIndex.cc:355-365 | flushes, then sends the failed transaction id |
| RemoteIndexClient.RemoteIndex.TransactionCursor | src/vw/Plate/RemoteIndex.cc:367-375 | sends a cursor request without flushing and returns the reply's transaction id |

The header fields are constant after construction. The contracts of `Open`
and `Create` state what each accessor returns.

## Left out

- AMQP connection setup, unique queue naming, `bind_service` and the `IndexService::Stub` are not modelled. They are transport plumbing; the abstract request log takes their place. The host, port and routing key produced by `parse_url` are therefore not used after parsing.
- Protobuf message encoding and the `null_closure` callback are not modelled. They are foreign-library calls that carry no logic.
- `vw_out` logging is not modelled. It is side output only.
- Failures of the remote calls are not modelled in detail. The transport and the service are outside the model; a call either replies (`Replied`) or raises (`Raised`), and that outcome is an input.
- Exception messages are not modelled. `UrlError` records which of the three throws was taken, with the URL, and `BadLexicalCast` records the port text.
- `lexical_cast<int>` is modelled as "optional sign, one or more decimal digits, 32-bit range". It does not model locale-dependent behaviour. Strings.LexicalCastPlus covers only text with no sign of its own: `+-5` and `++5` fail either way.
- Integer widths: proto `int32` fields and C++ `int` arguments are unbounded `int` in the model, and `blob_offset` (`uint64`) is a `nat`. The client mostly copies these values, and no wrap-around is modelled.
- PlateMessages.Box.Width and PlateMessages.Box.Height: `valid_tiles` (src/vw/Plate/RemoteIndex.cc:265-266) sends `region.width()` and `region.height()`, which `BBox2i` computes as max minus min in 32-bit `int`. That subtraction can overflow for extreme corners. The model's unbounded `maxX - minX` and `maxY - minY` do not capture the overflow.
- Characters: `std::string` bytes are Dafny `char`s. Only the ASCII characters 'p', 'f', ':', '/' (the scheme `pf://` and the separators), '+', '-' and the digits are ever inspected, which are the same in both, so this loses no behaviour.
- The layouts of `TileHeader`, `IndexRecord` and `IndexHeader` are given in the protobuf schema, which is not part of this model. The model gives `TileHeader` and `IndexRecord` a representative set of fields and carries them unchanged. `IndexHeader` has the fields the accessors read. `PixelFormatEnum` and `ChannelTypeEnum` are plain integers.
- RemoteIndexClient.RemoteIndex.MultiReadRequest: the source reads reply field `index_records[i]` for every i below `transaction_ids_size()`. When the reply has fewer records than ids, that read is out of range, and protobuf does not define the result. The model returns `MalformedReply` for such a reply instead. `PairReplies` therefore requires at least as many records as ids.
- Server-side guarantees are not modelled. These are: strictly increasing transaction ids, refusing an override id already in use, how completing a transaction advances the read cursor, and which records a read or `valid_tiles` returns. Nothing in the client enforces them; their replies are inputs.
- Concurrency is not modelled. `flush_write_queue` is a `const` method that changes a `mutable` queue; here it is an ordinary method with `modifies this`. The model is single-threaded, like the class.
- src/vw/Plate/IndexService.h (server handler declarations) and src/vw/tools/grassfirealpha.cc (an image tool doing floating-point filtering and I/O) are not part of this model.
