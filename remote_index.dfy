/**
  The client half of the remote platefile index. A RemoteIndex holds the
  platefile identity and header the service returned at open or create
  time, and a FIFO queue of pending write updates. The remote service is an
  abstract channel: `log` records every request sent, oldest first, and each
  operation takes the channel's replies as parameters, a `Raised` reply
  standing for an exception thrown by the call.
 */
module RemoteIndexClient {
  import opened Wrappers
  import opened PlateUrl
  import opened PlateMessages
  import opened WriteProtocol

  datatype IndexError = UrlFailure(urlError: UrlError) | RemoteFailure(rpcError: RpcError)

  /** What a caller receives from one remote call. */
  function Answer<T>(reply: Reply<T>): (r: Result<T, RpcError>)
    ensures r.Success? <==> reply.Replied?
    ensures reply.Replied? ==> r == Success(reply.value)
    ensures reply.Raised? ==> r == Failure(reply.error)
  {
    match reply
    case Replied(v) => Success(v)
    case Raised(e) => Failure(e)
  }

  /** The result of an operation that flushes first: the flush's exception, if any, wins. */
  function AfterFlush<T>(flushReply: Reply<()>, reply: Reply<T>): (r: Result<T, RpcError>)
    ensures r.Success? <==> flushReply.Replied? && reply.Replied?
    ensures flushReply.Raised? ==> r == Failure(flushReply.error)
    ensures flushReply.Replied? && reply.Replied? ==> r == Success(reply.value)
    ensures flushReply.Replied? && reply.Raised? ==> r == Failure(reply.error)
  {
    if flushReply.Raised? then Failure(flushReply.error) else Answer(reply)
  }

  /** The list multi_read_request builds: the i-th transaction id paired with the i-th record. */
  method PairReplies(reply: MultiReadReply) returns (results: seq<(int, IndexRecord)>)
    requires |reply.transactionIds| <= |reply.indexRecords|
    ensures |results| == |reply.transactionIds|
    ensures forall i :: 0 <= i < |results| ==>
              results[i] == (reply.transactionIds[i], reply.indexRecords[i])
  {
    results := [];
    for i := 0 to |reply.transactionIds|
      invariant |results| == i
      invariant forall k :: 0 <= k < i ==>
                  results[k] == (reply.transactionIds[k], reply.indexRecords[k])
    {
      results := results + [(reply.transactionIds[i], reply.indexRecords[i])];
    }
  }

  /** The list valid_tiles builds: the reply's tile headers, in the reply's order. */
  method CollectTileHeaders(tileHeaders: seq<TileHeader>) returns (results: seq<TileHeader>)
    ensures results == tileHeaders
  {
    results := [];
    for i := 0 to |tileHeaders|
      invariant results == tileHeaders[..i]
    {
      results := results + [tileHeaders[i]];
    }
  }

  class RemoteIndex {
    const platefileId: int
    const indexHeader: IndexHeader
    const shortPlateFilename: string
    const fullPlateFilename: string
    /** `m_write_queue`; its front is index 0. */
    var writeQueue: seq<IndexWriteUpdate>
    /** Every request sent to the index service by this client, oldest first. */
    ghost var log: seq<Request>

    ghost function State(): ClientState
      reads this
    {
      ClientState(platefileId, writeQueue, log)
    }

    ghost predicate Stamped()
      reads this
    {
      StampedUpdates(writeQueue, platefileId) && StampedLog(log, platefileId)
    }

    ghost predicate Valid()
      reads this
    {
      Inv(State())
    }

    // -------------------------------------------------------------------
    // Construction

    /** Opening an existing index: the service's header and names are taken as they come. */
    constructor Open(endpoint: Endpoint, response: OpenReply)
      ensures Valid()
      ensures State() == Opened(response.indexHeader.platefileId, OpenRequest(endpoint.platefileName))
      ensures Header() == response.indexHeader && Version() == response.indexHeader.version
      ensures TileSize() == response.indexHeader.tileSize
      ensures TileFiletype() == response.indexHeader.tileFiletype
      ensures PixelFormat() == response.indexHeader.pixelFormat
      ensures ChannelType() == response.indexHeader.channelType
      ensures platefileId == response.indexHeader.platefileId
      ensures shortPlateFilename == response.shortPlateFilename
      ensures PlatefileName() == response.fullPlateFilename
    {
      indexHeader := response.indexHeader;
      platefileId := response.indexHeader.platefileId;
      shortPlateFilename := response.shortPlateFilename;
      fullPlateFilename := response.fullPlateFilename;
      writeQueue := [];
      log := [OpenRequest(endpoint.platefileName)];
    }

    /**
      Creating a new index: the caller's header goes out with its platefile
      id zeroed, and the header in the reply replaces it.
     */
    constructor Create(endpoint: Endpoint, headerInfo: IndexHeader, response: OpenReply)
      ensures Valid()
      ensures State() == Opened(response.indexHeader.platefileId,
                                CreateRequest(endpoint.platefileName, headerInfo.(platefileId := 0)))
      ensures Header() == response.indexHeader && Version() == response.indexHeader.version
      ensures TileSize() == response.indexHeader.tileSize
      ensures TileFiletype() == response.indexHeader.tileFiletype
      ensures PixelFormat() == response.indexHeader.pixelFormat
      ensures ChannelType() == response.indexHeader.channelType
      ensures platefileId == response.indexHeader.platefileId
      ensures shortPlateFilename == response.shortPlateFilename
      ensures PlatefileName() == response.fullPlateFilename
    {
      indexHeader := response.indexHeader;
      platefileId := response.indexHeader.platefileId;
      shortPlateFilename := response.shortPlateFilename;
      fullPlateFilename := response.fullPlateFilename;
      writeQueue := [];
      log := [CreateRequest(endpoint.platefileName, headerInfo.(platefileId := 0))];
    }

    /**
      `RemoteIndex(url)`: a malformed URL throws before anything is sent; a
      raised open request leaves no object behind.
     */
    static method OpenUrl(url: string, response: Reply<OpenReply>) returns (r: Result<RemoteIndex, IndexError>)
      ensures ParseUrl(url).Failure? ==> r == Failure(UrlFailure(ParseUrl(url).error))
      ensures ParseUrl(url).Success? && response.Raised? ==> r == Failure(RemoteFailure(response.error))
      ensures r.Success? <==> ParseUrl(url).Success? && response.Replied?
      ensures r.Success? ==> && fresh(r.value) && r.value.Valid()
                             && r.value.State() == Opened(response.value.indexHeader.platefileId,
                                                          OpenRequest(ParseUrl(url).value.platefileName))
                             && r.value.Header() == response.value.indexHeader
                             && r.value.PlatefileName() == response.value.fullPlateFilename
    {
      var endpoint := ParseUrl(url);
      if endpoint.Failure? {
        return Failure(UrlFailure(endpoint.error));
      }
      if response.Raised? {
        return Failure(RemoteFailure(response.error));
      }
      var index := new RemoteIndex.Open(endpoint.value, response.value);
      r := Success(index);
    }

    /** `RemoteIndex(url, index_header_info)`, with the same failure behaviour as OpenUrl. */
    static method CreateUrl(url: string, headerInfo: IndexHeader, response: Reply<OpenReply>)
      returns (r: Result<RemoteIndex, IndexError>)
      ensures ParseUrl(url).Failure? ==> r == Failure(UrlFailure(ParseUrl(url).error))
      ensures ParseUrl(url).Success? && response.Raised? ==> r == Failure(RemoteFailure(response.error))
      ensures r.Success? <==> ParseUrl(url).Success? && response.Replied?
      ensures r.Success? ==> && fresh(r.value) && r.value.Valid()
                             && r.value.State() == Opened(response.value.indexHeader.platefileId,
                                                          CreateRequest(ParseUrl(url).value.platefileName,
                                                                        headerInfo.(platefileId := 0)))
                             && r.value.Header() == response.value.indexHeader
                             && r.value.PlatefileName() == response.value.fullPlateFilename
    {
      var endpoint := ParseUrl(url);
      if endpoint.Failure? {
        return Failure(UrlFailure(endpoint.error));
      }
      if response.Raised? {
        return Failure(RemoteFailure(response.error));
      }
      var index := new RemoteIndex.Create(endpoint.value, headerInfo, response.value);
      r := Success(index);
    }

    /** The destructor: whatever is still queued is flushed. */
    method Close(flushReply: Reply<()>) returns (r: Result<(), RpcError>)
      requires Valid()
      modifies this
      ensures Valid() && State() == Flush(old(State()))
      ensures r == Answer(flushReply)
    {
      r := FlushWriteQueue(flushReply);
    }

    // -------------------------------------------------------------------
    // Header accessors

    /** `index_header()`: the header the service sent when the index was opened or created. */
    function Header(): (h: IndexHeader)
      ensures h == indexHeader
    {
      indexHeader
    }

    /** `platefile_name()`: the full name from the open reply, not the short one. */
    function PlatefileName(): (n: string)
      ensures n == fullPlateFilename
    {
      fullPlateFilename
    }

    // Each remaining accessor reads one field of the header Header() returns.

    function Version(): (v: int)
      ensures v == Header().version
    {
      indexHeader.version
    }

    function TileSize(): (n: int)
      ensures n == Header().tileSize
    {
      indexHeader.tileSize
    }

    function TileFiletype(): (t: string)
      ensures t == Header().tileFiletype
    {
      indexHeader.tileFiletype
    }

    function PixelFormat(): (f: int)
      ensures f == Header().pixelFormat
    {
      indexHeader.pixelFormat
    }

    function ChannelType(): (c: int)
      ensures c == Header().channelType
    {
      indexHeader.channelType
    }

    // -------------------------------------------------------------------
    // Write buffer

    /**
      Drains the queue front to back into one MultiWriteUpdate batch and
      sends it, also when the queue is empty. The entries are gone from
      the queue even if the call raises.
     */
    method FlushWriteQueue(reply: Reply<()>) returns (r: Result<(), RpcError>)
      requires Stamped()
      modifies this
      ensures Valid()
      ensures State() == Flush(old(State()))
      ensures writeQueue == [] && log == old(log) + [MultiWriteUpdate(old(writeQueue))]
      ensures r == Answer(reply)
    {
      ghost var s0 := State();
      var batch: seq<IndexWriteUpdate> := [];
      while |writeQueue| > 0
        invariant batch + writeQueue == old(writeQueue)
        invariant log == old(log)
        decreases |writeQueue|
      {
        assert batch + writeQueue == (batch + [writeQueue[0]]) + writeQueue[1..];
        batch := batch + [writeQueue[0]];
        writeQueue := writeQueue[1..];
      }
      assert writeQueue == [] && batch == s0.queue;
      log := log + [MultiWriteUpdate(batch)];
      FlushKeepsStamps(s0);
      r := Answer(reply);
    }

    /**
      Queues one update stamped with the platefile id; the tenth pending
      entry triggers a flush before returning, so fewer than ten remain.
     */
    method WriteUpdate(header: TileHeader, record: IndexRecord, flushReply: Reply<()>)
      returns (r: Result<(), RpcError>)
      requires Valid()
      modifies this
      ensures Valid() && |writeQueue| < MaxPendingWriteUpdates
      ensures State() == Push(old(State()), header, record)
      ensures |old(writeQueue)| + 1 < MaxPendingWriteUpdates ==>
                writeQueue == old(writeQueue) + [IndexWriteUpdate(platefileId, header, record)]
                && log == old(log) && r == Success(())
      ensures |old(writeQueue)| + 1 >= MaxPendingWriteUpdates ==>
                writeQueue == []
                && log == old(log) + [MultiWriteUpdate(old(writeQueue) + [IndexWriteUpdate(platefileId, header, record)])]
                && r == Answer(flushReply)
    {
      ghost var s0 := State();
      writeQueue := writeQueue + [IndexWriteUpdate(platefileId, header, record)];
      if |writeQueue| >= MaxPendingWriteUpdates {
        r := FlushWriteQueue(flushReply);
      } else {
        r := Success(());
      }
      ApplyKeepsInv(s0, WriteUpdateStep(header, record));
    }

    // -------------------------------------------------------------------
    // Operations that flush before their own request

    method ReadRequest(col: int, row: int, level: int, transactionId: int, exactTransactionMatch: bool,
                       flushReply: Reply<()>, reply: Reply<IndexRecord>)
      returns (r: Result<IndexRecord, RpcError>)
      requires Valid()
      modifies this
      ensures Valid()
      ensures State() == Call(old(State()),
                              Request.ReadRequest(platefileId, col, row, level, transactionId, exactTransactionMatch),
                              flushReply.Replied?)
      ensures r == AfterFlush(flushReply, reply)
    {
      var req := Request.ReadRequest(platefileId, col, row, level, transactionId, exactTransactionMatch);
      ghost var s0 := State();
      var flushed := FlushWriteQueue(flushReply);
      ApplyKeepsInv(s0, CallStep(req, flushReply.Replied?));
      if flushed.Failure? {
        return Failure(flushed.error);
      }
      log := log + [req];
      r := Answer(reply);
    }

    /**
      Returns one (transaction id, record) pair per transaction id in the
      reply, in the reply's order. A reply with fewer records than ids is
      reported as malformed.
     */
    method MultiReadRequest(col: int, row: int, level: int, beginTransactionId: int, endTransactionId: int,
                            flushReply: Reply<()>, reply: Reply<MultiReadReply>)
      returns (r: Result<seq<(int, IndexRecord)>, RpcError>)
      requires Valid()
      modifies this
      ensures Valid()
      ensures State() == Call(old(State()),
                              Request.MultiReadRequest(platefileId, col, row, level,
                                                       beginTransactionId, endTransactionId),
                              flushReply.Replied?)
      ensures r.Success? <==> && flushReply.Replied? && reply.Replied?
                              && |reply.value.transactionIds| <= |reply.value.indexRecords|
      ensures flushReply.Raised? ==> r == Failure(flushReply.error)
      ensures flushReply.Replied? && reply.Raised? ==> r == Failure(reply.error)
      ensures r.Success? ==>
                && |r.value| == |reply.value.transactionIds|
                && forall i :: 0 <= i < |r.value| ==>
                     r.value[i] == (reply.value.transactionIds[i], reply.value.indexRecords[i])
    {
      var req := Request.MultiReadRequest(platefileId, col, row, level, beginTransactionId, endTransactionId);
      ghost var s0 := State();
      var flushed := FlushWriteQueue(flushReply);
      ApplyKeepsInv(s0, CallStep(req, flushReply.Replied?));
      if flushed.Failure? {
        return Failure(flushed.error);
      }
      log := log + [req];
      if reply.Raised? {
        return Failure(reply.error);
      }
      if |reply.value.transactionIds| > |reply.value.indexRecords| {
        return Failure(MalformedReply);
      }
      var results := PairReplies(reply.value);
      r := Success(results);
    }

    /** Writing, part 3: signals that the blob reserved by write_request holds its data. */
    method WriteComplete(blobId: int, blobOffset: nat, flushReply: Reply<()>, reply: Reply<()>)
      returns (r: Result<(), RpcError>)
      requires Valid()
      modifies this
      ensures Valid()
      ensures State() == Call(old(State()), Request.WriteComplete(platefileId, blobId, blobOffset),
                              flushReply.Replied?)
      ensures r == AfterFlush(flushReply, reply)
    {
      var req := Request.WriteComplete(platefileId, blobId, blobOffset);
      ghost var s0 := State();
      var flushed := FlushWriteQueue(flushReply);
      ApplyKeepsInv(s0, CallStep(req, flushReply.Replied?));
      if flushed.Failure? {
        return Failure(flushed.error);
      }
      log := log + [req];
      r := Answer(reply);
    }

    /** The tile headers the service reports for a region, in the reply's order. */
    method ValidTiles(level: int, region: Box, beginTransactionId: int, endTransactionId: int,
                      minNumMatches: int, flushReply: Reply<()>, reply: Reply<seq<TileHeader>>)
      returns (r: Result<seq<TileHeader>, RpcError>)
      requires Valid()
      modifies this
      ensures Valid()
      ensures State() == Call(old(State()),
                              ValidTilesRequest(platefileId, level, region.minX, region.minY,
                                                region.Width(), region.Height(),
                                                beginTransactionId, endTransactionId, minNumMatches),
                              flushReply.Replied?)
      ensures r == AfterFlush(flushReply, reply)
    {
      var req := ValidTilesRequest(platefileId, level, region.minX, region.minY,
                                   region.Width(), region.Height(),
                                   beginTransactionId, endTransactionId, minNumMatches);
      ghost var s0 := State();
      var flushed := FlushWriteQueue(flushReply);
      ApplyKeepsInv(s0, CallStep(req, flushReply.Replied?));
      if flushed.Failure? {
        return Failure(flushed.error);
      }
      log := log + [req];
      if reply.Raised? {
        return Failure(reply.error);
      }
      var results := CollectTileHeaders(reply.value);
      r := Success(results);
    }

    method NumLevels(flushReply: Reply<()>, reply: Reply<int>) returns (r: Result<int, RpcError>)
      requires Valid()
      modifies this
      ensures Valid()
      ensures State() == Call(old(State()), NumLevelsRequest(platefileId), flushReply.Replied?)
      ensures r == AfterFlush(flushReply, reply)
    {
      var req := NumLevelsRequest(platefileId);
      ghost var s0 := State();
      var flushed := FlushWriteQueue(flushReply);
      ApplyKeepsInv(s0, CallStep(req, flushReply.Replied?));
      if flushed.Failure? {
        return Failure(flushed.error);
      }
      log := log + [req];
      r := Answer(reply);
    }

    /** Commits a transaction, optionally moving the read cursor; pending writes go first. */
    method TransactionComplete(transactionId: int, updateReadCursor: bool,
                               flushReply: Reply<()>, reply: Reply<()>)
      returns (r: Result<(), RpcError>)
      requires Valid()
      modifies this
      ensures Valid()
      ensures State() == Call(old(State()),
                              Request.TransactionComplete(platefileId, transactionId, updateReadCursor),
                              flushReply.Replied?)
      ensures r == AfterFlush(flushReply, reply)
    {
      var req := Request.TransactionComplete(platefileId, transactionId, updateReadCursor);
      ghost var s0 := State();
      var flushed := FlushWriteQueue(flushReply);
      ApplyKeepsInv(s0, CallStep(req, flushReply.Replied?));
      if flushed.Failure? {
        return Failure(flushed.error);
      }
      log := log + [req];
      r := Answer(reply);
    }

    /** Marks a transaction failed; pending writes go first. */
    method TransactionFailed(transactionId: int, flushReply: Reply<()>, reply: Reply<()>)
      returns (r: Result<(), RpcError>)
      requires Valid()
      modifies this
      ensures Valid()
      ensures State() == Call(old(State()), Request.TransactionFailed(platefileId, transactionId),
                              flushReply.Replied?)
      ensures r == AfterFlush(flushReply, reply)
    {
      var req := Request.TransactionFailed(platefileId, transactionId);
      ghost var s0 := State();
      var flushed := FlushWriteQueue(flushReply);
      ApplyKeepsInv(s0, CallStep(req, flushReply.Replied?));
      if flushed.Failure? {
        return Failure(flushed.error);
      }
      log := log + [req];
      r := Answer(reply);
    }

    // -------------------------------------------------------------------
    // Operations that do not flush

    /** Writing, part 1: reserves a blob of `size` bytes and returns its id. */
    method WriteRequest(size: int, reply: Reply<int>) returns (r: Result<int, RpcError>)
      requires Valid()
      modifies this
      ensures Valid()
      ensures writeQueue == old(writeQueue)
      ensures log == old(log) + [Request.WriteRequest(platefileId, size)]
      ensures State() == Call(old(State()), Request.WriteRequest(platefileId, size), true)
      ensures r == Answer(reply)
    {
      var req := Request.WriteRequest(platefileId, size);
      ApplyKeepsInv(State(), CallStep(req, true));
      log := log + [req];
      r := Answer(reply);
    }

    /** Asks for a new transaction id, or for `transactionIdOverride` when one is given. */
    method TransactionRequest(description: string, transactionIdOverride: int, reply: Reply<int>)
      returns (r: Result<int, RpcError>)
      requires Valid()
      modifies this
      ensures Valid()
      ensures writeQueue == old(writeQueue)
      ensures log == old(log) + [Request.TransactionRequest(platefileId, description, transactionIdOverride)]
      ensures State() == Call(old(State()),
                              Request.TransactionRequest(platefileId, description, transactionIdOverride), true)
      ensures r == Answer(reply)
    {
      var req := Request.TransactionRequest(platefileId, description, transactionIdOverride);
      ApplyKeepsInv(State(), CallStep(req, true));
      log := log + [req];
      r := Answer(reply);
    }

    /** The service's current read cursor. */
    method TransactionCursor(reply: Reply<int>) returns (r: Result<int, RpcError>)
      requires Valid()
      modifies this
      ensures Valid()
      ensures writeQueue == old(writeQueue)
      ensures log == old(log) + [TransactionCursorRequest(platefileId)]
      ensures State() == Call(old(State()), TransactionCursorRequest(platefileId), true)
      ensures r == Answer(reply)
    {
      var req := TransactionCursorRequest(platefileId);
      ApplyKeepsInv(State(), CallStep(req, true));
      log := log + [req];
      r := Answer(reply);
    }
  }
}
