/**
  The values exchanged with the remote index service. Requests are the
  messages the client fills in before each remote call; replies are what
  the service hands back. Tile headers and index records are carried
  verbatim, so only a representative set of their fields is kept.
 */
module PlateMessages {

  datatype IndexHeader = IndexHeader(
    platefileId: int,
    version: int,
    tileSize: int,
    tileFiletype: string,
    pixelFormat: int,
    channelType: int)

  datatype TileHeader = TileHeader(col: int, row: int, level: int, transactionId: int, filetype: string)

  datatype IndexRecord = IndexRecord(blobId: int, blobOffset: nat, status: int)

  /** An `IndexWriteUpdate`: one buffered metadata write, stamped with the platefile id. */
  datatype IndexWriteUpdate = IndexWriteUpdate(platefileId: int, header: TileHeader, record: IndexRecord)

  /** An integer bounding box given by its min and max corners (`BBox2i`). */
  datatype Box = Box(minX: int, minY: int, maxX: int, maxY: int)
  {
    function Width(): int { maxX - minX }
    function Height(): int { maxY - minY }
  }

  datatype Request =
    | OpenRequest(plateName: string)
    | CreateRequest(plateName: string, indexHeader: IndexHeader)
    | ReadRequest(platefileId: int, col: int, row: int, level: int,
                  transactionId: int, exactTransactionMatch: bool)
    | MultiReadRequest(platefileId: int, col: int, row: int, level: int,
                       beginTransactionId: int, endTransactionId: int)
    | WriteRequest(platefileId: int, size: int)
    | MultiWriteUpdate(updates: seq<IndexWriteUpdate>)
    | WriteComplete(platefileId: int, blobId: int, blobOffset: nat)
    | ValidTilesRequest(platefileId: int, level: int, regionCol: int, regionRow: int,
                        regionWidth: int, regionHeight: int,
                        beginTransactionId: int, endTransactionId: int, minNumMatches: int)
    | NumLevelsRequest(platefileId: int)
    | TransactionRequest(platefileId: int, description: string, transactionIdOverride: int)
    | TransactionComplete(platefileId: int, transactionId: int, updateReadCursor: bool)
    | TransactionFailed(platefileId: int, transactionId: int)
    | TransactionCursorRequest(platefileId: int)

  /** `IndexOpenReply`, the answer to both OpenRequest and CreateRequest. */
  datatype OpenReply = OpenReply(indexHeader: IndexHeader, shortPlateFilename: string, fullPlateFilename: string)

  /** `IndexMultiReadReply`: two parallel repeated fields. */
  datatype MultiReadReply = MultiReadReply(transactionIds: seq<int>, indexRecords: seq<IndexRecord>)

  /** What a remote call can raise instead of replying. */
  datatype RpcError =
    | TileNotFound
    | RemoteFault(message: string)
    | MalformedReply

  /** The outcome of one remote call, supplied from outside the model. */
  datatype Reply<+T> = Replied(value: T) | Raised(error: RpcError)
}
