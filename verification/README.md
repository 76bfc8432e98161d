# A verified model of sshserv's transfer engines

`sshserv` is an SSH server whose `sftp/` package answers and issues SFTP
requests concurrently, whose `hdfs/` package reads and writes HDFS blocks, and
whose `serv/` package adds SCP. This project models the parts of it where many
things happen at once, or where data is cut up and put together again, and
proves what they promise. All files are checked together:
`dafny verify dfyconfig.toml`.

Goroutines that share state are modelled as a state machine: a `State`, the
`Action`s its goroutines can take between two channel, lock or network
operations, when an action is `Enabled`, what it does (`Apply`), and a `Run` of
any length. Theorems are about every run, so about every interleaving. Code
that one goroutine executes by itself is a class or a method with loops, in the
source's own control flow. Whatever comes from outside (a server's answers, a
datanode's failures, how a channel splits its bytes, the order in which a map
is walked) is a parameter or a nondeterministic choice, so a contract holds for
all of it. It is a parameter where a contract says what happens when nothing
fails, so that this is a condition on what is given and not on what is done.

| file | models |
|---|---|
| `ServerPipeline.dfy`, `ServerPages.dfy`, `ServerProgress.dfy`, `PacketOrder.dfy`, `Allocation.dfy` | the SFTP server's receiver, dispatcher, workers and controller, and its buffer pages |
| `RequestHandles.dfy` | handles of the request server, and closing what handlers gave out |
| `ClientRead.dfy`, `ClientWriteTo.dfy` | `File.ReadAt` and `File.WriteTo` with many reads outstanding |
| `ClientConn.dfy` | dispatching requests, delivering answers, broadcasting a disconnect |
| `Wire.dfy`, `Packets.dfy`, `PacketLayout.dfy`, `DataFrame.dfy`, `ReadDir.dfy` | packet fields, request packets, their bytes and their stream, DATA frames built in place, directory listings |
| `BlockWriteStream.dfy`, `AckPipeline.dfy`, `FileWriter.dfy` | cutting a file into blocks and packets, and their acknowledgement |
| `Failover.dfy`, `PacketStream.dfy`, `BlockReadStream.dfy`, `BlockReader.dfy`, `FileReader.dfy` | reading a file over failing datanodes |
| `MemFs.dfy`, `Paths.dfy` | the in-memory file system |
| `Scp.dfy`, `ScpScript.dfy` | the SCP tree protocol in both directions, and what streams its uploader accepts |
| `Bytes.dfy`, `Options.dfy`, `Decimal.dfy` | bytes, optional values and decimal numerals |

What is taken for granted: order ids and request ids do not wrap at 2^32; a
remote file does not change during a transfer, and a server or datanode that
sends bytes sends the file's; a send that failed is never answered; writes on a
connection fail once it is closed; a datanode does not start behind the
position asked for, though it may stop anywhere; a packet whose write failed did
not arrive, and a datanode acknowledges only packets that did.

Results that differ from what one might expect of the code:

- `File.WriteTo`, when it ends without an error, has given the whole rest of the
  file if and only if no answer of the server was shorter than the request and
  the file allow (`ClientWriteTo.WriteTo`); a server that answers short makes it
  end early without an error (`ClientWriteTo.ShortAnswerLosesTail`). It is broken
  off if and only if a result is lost, the writer fails, or a read is refused
  below all positions where the server reports the end of the file.
- `File.ReadAt` fails if and only if a result is lost, or a read is refused at a
  position below all those where the server reports the end of the file
  (`ClientRead.ReadAt`): a refusal above one of them goes unreported.
- A block stream reports its end while bytes of a chunk are still buffered
  (`BlockReadStream.EarlyEnd`): at an end nothing is left if and only if nothing
  was buffered before the read (`BlockReadStream.Stream.Read`).
- The file reader then opens another block reader, and does not always make up
  for it. On a connection that does not fail, a new reader gets nothing if and
  only if no byte lies beyond its position, or the position is strictly inside
  the last chunk of a packet that nothing follows, or that only an empty packet
  follows when the way into that chunk is longer than the copy buffer
  (`PacketStream.StarvedExactly`, `BlockReader.Reader.Read`). There `Read` goes on
  for ever although nothing fails (`FileReader.ReadStalls`), or fails if the
  packets do not even reach the position; anywhere else it ends within two
  rounds with bytes (`FileReader.Reader.ReadSound`). Datanodes that end a block
  with an empty packet never cause it, as long as a chunk fits in the copy buffer
  (`PacketStream.EmptyLastSuffices`).
- Closing a file writer again after a failed `Close` reports success whatever the
  first call failed to do. If a packet's write failed, nothing of that packet is
  stored, and after an unaligned append bytes may not even have left the buffer,
  yet all of them are counted in the block's length
  (`FileWriter.RetriedCloseLosesAll`). Everything is stored if and only if the
  closed block has nothing buffered, and no packet of it with bytes was lost or
  left without acknowledgement (`FileWriter.Writer.Close`).
- A WRITE packet comes back from its encoding exactly when its length field is
  the length of its data (`Packets.WriteRoundTrips`), and the server does not
  know the `fsync` request its own client sends (`Packets.ExtendedRoundTrip`).
- Renaming a directory into its own subtree, or the root, destroys the tree of
  the in-memory file system, and no other rename does (`MemFs.Root.Rename`).
  After the root is renamed to "/a", making "/x" makes "/a/x"
  (`MemFs.RenamedRootMisplaces`).

## Model

| member | source | states |
|---|---|---|
| `ServerPipeline.ResponsesInOrder` | sftp/packet-manager.go:94-201 | in every reachable state the responses sent are those of order ids 1..k, in order, each once and with its request's id |
| `ServerPipeline.NothingStuck` | sftp/packet-manager.go:115-201 | when the channels are drained and no packet is being worked on, `incoming` and `outgoing` are empty and every dispatched request was answered |
| `ServerPipeline.NoDeadlock` | sftp/packet-manager.go:115-168 | while a received request is unanswered and the server has not shut down, some goroutine can take a step without outside help |
| `ServerProgress.MeasureFalls` | sftp/packet-manager.go:94-201 | every step of the server's own goroutines, but for a worker's further page, lowers a measure of what is left to do |
| `ServerProgress.Finishes` | sftp/packet-manager.go:94-201 | from every state reached before shutdown, steps of the server's own lead to every received request being answered |
| `ServerProgress.EveryScheduleAnswers` | sftp/packet-manager.go:94-201 | every schedule of such steps comes to an end, and when none is possible before shutdown, every received request has been answered |
| `ServerProgress.ServesAll` | sftp/request-server.go:108-180 | for every sequence of requests there is a run that takes in exactly these and writes a response to each, in order |
| `ServerProgress.RunTogether` | sftp/packet-manager.go:115-150 | any reads and writes, up to the number of workers, are all at work at the same time in some run |
| `ServerPipeline.CloseWaits` | sftp/packet-manager.go:115-150 | when a CLOSE is being executed, every request received before it has handed in its response |
| `ServerPipeline.PagesAreSafe` | sftp/packet-manager.go:183-189 | until a request's response is written, no page ever given to it is free or belongs to another request |
| `ServerPages.CustodyStep` | sftp/packet-manager.go:94-201 | every step of every goroutine leaves what was given to a request with whoever uses it: the page it was read into, and those in its worker's hands or its response |
| `ServerPages.RequestPagesAreOwn` | sftp/request-server.go:182-260 | in every run, until a request's response is written, each page used for it, wherever it has got to, is recorded for it, not free and no other request's |
| `ServerPages.WorkerPagesAreOwn` | sftp/packet.go:598-608 | so is each page a worker works with, its request's or one it took for file data |
| `ServerPages.WorkersAreApart` | sftp/packet.go:598-608 | no two workers ever work with the same page |
| `ServerPages.ReceiverPageIsOwn` | sftp/packet.go:142-174 | the page the receiver reads the next packet into is that packet's own already |
| `ServerPages.ResponsePagesAreOwn` | sftp/packet-manager.go:172-201 | the pages the data of an unwritten response is in are its request's own |
| `ServerPages.PageIsFresh` | sftp/allocator.go:25-49 | a worker reading file data can always take one more page, nobody was using it, and it is that request's own |
| `ServerPages.PagesGoBack` | sftp/packet-manager.go:183-189 | once a response is written and its request popped, no page is held for it |
| `ServerPipeline.PagesAreConserved` | sftp/allocator.go:25-60 | over every interleaving, pages in use and free pages are together all the pages created |
| `ServerPipeline.FlushIsARun` | sftp/packet-manager.go:172-201 | the sending loop is a run of the pipeline that sends exactly the matching heads and pops both lists by as many |
| `ServerPipeline.Step` | sftp/packet-manager.go:94-201 | every action of every goroutine keeps the invariant that says where each request is |
| `ServerPipeline.RunInv` | sftp/request-server.go:108-260 | the invariant holds after every run |
| `PacketOrder.PacketManager.MaybeSendPackets` | sftp/packet-manager.go:172-201 | sends the longest run of heads with equal order ids, releases their pages, and stops at the first mismatch |
| `PacketOrder.PacketManager.OnRequest` | sftp/packet-manager.go:153-170 | an announced request goes to its place in `incoming` by order id, which is the end when it is the newest, and what can be sent then is sent |
| `PacketOrder.PacketManager.OnResponse` | sftp/packet-manager.go:153-170 | a ready response goes to its place by order id, and what can be sent then is sent |
| `PacketOrder.InsertAscending` | sftp/packet-manager.go:86-90 | placing a response keeps the list in ascending order id with just that element added |
| `PacketOrder.SortAppended` | sftp/packet-manager.go:86-90 | sorting a sorted list with one packet appended is placing that packet |
| `PacketOrder.SortIsUnique` | sftp/packet-manager.go:86-90 | any ascending arrangement of the same packets is what the sort gives, so the sort's algorithm does not matter |
| `Allocation.GetValid` | sftp/allocator.go:25-49 | the page handed out is held by nobody, and no page is lost |
| `Allocation.ReleaseValid` | sftp/allocator.go:52-60 | releasing a request's pages keeps pages distinct, owned and counted |
| `Allocation.Exclusive` | sftp/allocator.go:25-60 | a page of one request is neither free nor another's |
| `Allocation.Allocator.GetPage` | sftp/allocator.go:25-49 | the last free page or a new one, recorded for the request |
| `Allocation.Allocator.ReleasePages` | sftp/allocator.go:52-60 | all pages of the request become free, no others |
| `Allocation.Allocator.CountUsedPages` | sftp/allocator.go:72-88 | the count plus the free pages is the number of pages created |
| `RequestHandles.RequestServer.NextRequest` | sftp/request-server.go:72-80 | the handle is unlike every handle issued before, and the request is registered under it |
| `RequestHandles.RequestServer.CloseFiles` | sftp/request.go:139-179 | closes writer, reader-writer and reader in that order where they can be closed, and reports the first error |
| `RequestHandles.RequestServer.CloseRequest` | sftp/request-server.go:95-103 | removes the handle and closes what it holds; an unknown handle is an error and changes nothing |
| `RequestHandles.RequestServer.OpenFile` | sftp/request-server.go:205-213 | succeeds exactly when the flags ask for something and the handler agrees; a failed open leaves nothing behind |
| `RequestHandles.RequestServer.OpenDir` | sftp/request-server.go:197-204 | a directory handle when the handler agrees, an error and nothing left behind otherwise |
| `RequestHandles.RequestServer.Handle` | sftp/request-server.go:193-213 | the reply is a handle exactly for an OPEN that is granted or an OPENDIR that is accepted; a CLOSE succeeds exactly when the handle is open and what was given out for it closes |
| `RequestHandles.RequestServer.CloseAll` | sftp/request-server.go:158-177 | at the end every closable thing given out has been closed exactly once |
| `RequestHandles.RequestServer.Serve` | sftp/request-server.go:140-180 | over any sequence of packets every reply is the one that the packet and those before it call for, no handle is given out twice and everything closable is closed exactly once |
| `RequestHandles.TracksNext` | sftp/request-server.go:193-213 | the open requests are always those the packets and replies so far leave open, each with what was given out for it |
| `RequestHandles.CloseInv` | sftp/request-server.go:95-103 | closing keeps: one grant per request, none held twice, none both held and closed, none forgotten |
| `ClientRead.ReadAt` | sftp/client.go:902-992 | for every order and splitting of answers: same bytes and count as one direct read, end of file exactly when fewer bytes remain; an error, with count 0, if and only if a result was lost or a read refused below every reported end of file, so never when none of the results taken is lost or a refusal; in no turn of the loop more than `maxConcurrentRequests` outstanding |
| `ClientRead.LostOnly` | sftp/client.go:950-962 | until a result is lost, every result that comes answers one of the outstanding requests |
| `ClientRead.WindowGrows` | sftp/client.go:938-979 | in every turn as many requests are outstanding as desired unless all is asked for or an error is known, and what is desired grows by one with each answer that brings data, up to the limit |
| `ClientRead.FailsIff` | sftp/client.go:963-969 | the error kept is that of the lowest position with a status, so that it is a failure exactly when that status is a refusal or a result was lost |
| `ClientRead.ChunkInv` | sftp/client.go:958-979 | a short answer fills its bytes and leaves exactly the rest to be asked for again |
| `ClientRead.SendInv` | sftp/client.go:940-948 | a new request owns just the next bytes of the buffer |
| `ClientRead.AllFilled` | sftp/client.go:982-991 | when nothing is outstanding and the error is at worst end of file, every byte up to the end of the file was filled |
| `ClientWriteTo.WriteTo` | sftp/client.go:1000-1140 | what was written is always a prefix of the rest of the file; on success it is the whole rest if and only if no answer the server chose was short, and the inconsistency needs one; it is broken off if and only if in one of its turns a result is lost or the writer fails, or a read is refused below every reported end of file; with none of these it succeeds with the whole rest; in no turn more chunks in flight or held than the limit |
| `ClientWriteTo.BrokenIff` | sftp/client.go:1047-1140 | that condition, over the turns of the loop, for all that the server and the writer may do |
| `ClientWriteTo.WindowGrows` | sftp/client.go:1047-1104 | in every turn as many chunks are in flight or held as desired unless an error is known; what is desired grows with each arrival in order, and is one at a time once all of the reported size is asked for |
| `ClientWriteTo.Drain` | sftp/client.go:1105-1124 | held chunks are written out as long as the next one is there, in order |
| `ClientWriteTo.Complete` | sftp/client.go:1126-1140 | with nothing outstanding and only full answers, everything has been written |
| `ClientWriteTo.OnlyShortIsInconsistent` | sftp/client.go:1065-1080 | the internal inconsistency is only reported after a short answer |
| `ClientWriteTo.ShortAnswerLosesTail` | sftp/client.go:1000-1140 | a call in which nothing fails and one answer is short: it ends without an error and leaves part of the file unwritten |
| `ClientWriteTo.ShortRun` | sftp/client.go:1050-1125 | the loop with that answer takes three turns, step by step from its first state |
| `ClientWriteTo.FollowsNext` | sftp/client.go:1047-1125 | one turn of the loop keeps the books in step with what the server and the writer chose |
| `ClientConn.EveryRequestAnswered` | sftp/conn.go:114-147 | once the receiver has stopped, every request whose dispatch returned has been sent a result |
| `ClientConn.AtMostOneTwice` | sftp/conn.go:121-147 | no request gets three results, and of one call at most one request gets two |
| `ClientConn.NeverBlocks` | sftp/conn.go:134-147 | a result channel of capacity `maxConcurrentRequests+1` always has room for whoever sends |
| `ClientConn.BrokenReceiverStops` | sftp/conn.go:68-147 | after a failure the receiver finishes its broadcast by its own steps alone |
| `ClientConn.Step` | sftp/conn.go:68-147 | every step of callers and receiver keeps the invariant that each request has a result or somebody bound to give it one |
| `ClientConn.ResultsBound` | sftp/client.go:910-950 | a call is sent at most one result more than it dispatched requests |
| `ClientConn.Recorded` | sftp/conn.go:68-147 | over every run: a request is delivered if and only if its answer came while it was outstanding, written, broken or told of the disconnect if and only if that happened, and the receiver gives up if and only if receiving failed or an answer came that nobody waits for |
| `ClientConn.AnswerArrives` | sftp/conn.go:76-99 | an answer to an outstanding request reaches the call that made it, and the receiver goes on |
| `ClientConn.RequestIsServed` | sftp/conn.go:76-132 | while receiving works, a call with room can make a request, have it answered and take the result |
| `ClientConn.Tallied` | sftp/conn.go:121-132 | calls, requests and results taken are those of the actions, in their order |
| `Wire.FieldRoundTrip` | sftp/packet.go:29-117 | a field is read back as it was written, whatever follows it |
| `Wire.FieldsRoundTrip` | sftp/packet.go:29-117 | so is any list of fields |
| `Wire.DecodedFieldsFit` | sftp/packet.go:74-117 | and what was read, written again, is the bytes that were there |
| `Packets.PlainRoundTrip` | sftp/packet.go:202-813 | every plain request packet decodes to itself, INIT with its list of extensions |
| `Packets.ExtendedRoundTrip` | sftp/packet.go:968-1062 | statvfs, posix-rename and hardlink requests decode to themselves, fsync to an unknown extended packet with its id |
| `Packets.WriteRoundTrips` | sftp/packet.go:677-711 | a WRITE round-trips if and only if its length field is right |
| `Packets.ExtensionsRoundTrip` | sftp/packet.go:202-232 | a list of extension pairs is read back to the end of the packet |
| `Packets.FrameReceived` | sftp/packet.go:120-174 | a sent frame of legal length is received whole, and the stream continues after it |
| `Packets.ReceivedIsFrame` | sftp/packet.go:142-174 | whatever is received was a frame of legal length at the head of the stream |
| `Packets.ServeLoop` | sftp/request-server.go:108-137 | the loop hands on the packets of the stream up to the first error, and ends with that error |
| `Packets.StreamRoundTrip` | sftp/packet-typing.go:84-136 | the stream of any sequence of requests splits into exactly those requests in order, and then ends |
| `PacketLayout.MarshalIsLayout` | sftp/packet.go:202-813 | the bytes of every request packet: type code, fields in order, and what follows them |
| `PacketLayout.AcceptedIff` | sftp/packet-typing.go:84-136 | bytes are taken for a request if and only if they begin with that request's bytes, and end there too where the rest would be read |
| `PacketLayout.UnknownIff` | sftp/packet.go:968-990 | an extended packet is passed on as unknown if and only if it begins with an id and a name that is none of the three known |
| `PacketLayout.Refused` | sftp/packet-typing.go:84-136 | any other bytes are refused: as unhandled if the type is not one of the protocol's requests, as too short otherwise |
| `PacketLayout.ExtensionsRead` | sftp/packet.go:202-232 | what is read as a list of extension pairs is that list's encoding |
| `DataFrame.MarshalData` | sftp/packet.go:847-854 | the nine-byte slide gives the packet built afresh, for every capacity, in place when it fits |
| `DataFrame.FramePacket` | sftp/packet.go:120-140 | so does the four-byte slide for the frame |
| `DataFrame.SendData` | sftp/packet.go:598-608 | both together; with an allocator page nothing leaves the page |
| `DataFrame.DataReceived` | sftp/packet.go:856-868 | the receiver finds id, length and data in the frame |
| `ReadDir.StatRoundTrip` | sftp/attrs.go:99-173 | attributes are read back as written, with and without owner |
| `ReadDir.EntryRoundTrip` | sftp/packet.go:493-522 | a NAME entry is read back as written |
| `PacketLayout.EntryLayout` | sftp/packet.go:493-522 | the bytes of a NAME entry: names, flags, size, owner if there is one, mode and times |
| `ReadDir.DecodeNames` | sftp/client.go:287-300 | the client's loop over a NAME packet gives its entries without "." and ".." |
| `ReadDir.Lister.ListAt` | serv/lister.go:17-36 | the entries from the offset on, as many as fit, and the end of file when that is not a full batch |
| `ReadDir.Lister.FileList` | sftp/request.go:379-416 | the next batch, a full one if there are entries enough, or the end-of-file status exactly when all was sent |
| `ReadDir.ReadDir` | sftp/client.go:264-313 | the batches cover each entry exactly once in order, and decode to the listing without "." and "..", in as few requests as full batches take and one more |
| `BlockWriteStream.Stream.MakePacket` | hdfs/intrnl/transfer/block_write_stream.go:207-248 | the next bytes of the buffer up to packet size or chunk boundary, with one checksum for each chunk of the block they touch |
| `BlockWriteStream.Stream.Flush` | hdfs/intrnl/transfer/block_write_stream.go:188-205 | packets stay consecutive and contiguous, and their data plus the buffer is what was written, on a closed stream too; a packet whose write fails is lost; it succeeds if and only if none of its calls fails |
| `BlockWriteStream.Stream.Write` | hdfs/intrnl/transfer/block_write_stream.go:125-137 | takes all bytes, or none when the stream is closed, and on success keeps less than a packet buffered |
| `BlockWriteStream.Stream.Finish` | hdfs/intrnl/transfer/block_write_stream.go:141-183 | every byte is in a packet, all of them stored, and an empty last packet stands at the end of the block; on an open stream it succeeds if and only if no packet was lost before and none of its calls fails; a closed stream is left as it is and success reported |
| `BlockWriteStream.Stream.AwaitAcks` | hdfs/intrnl/transfer/block_write_stream.go:173-180 | all acknowledgements come only if all packets were stored |
| `BlockWriteStream.DeliveredIff` | hdfs/intrnl/transfer/block_write_stream.go:188-205 | what was stored is everything in the packets if every packet with bytes was stored, and less otherwise |
| `BlockWriteStream.Contiguous` | hdfs/intrnl/transfer/block_write_stream.go:188-205 | each packet has the next sequence number and starts where the one before it ended |
| `BlockWriteStream.RunInChunk` | hdfs/intrnl/transfer/block_write_stream.go:213-245 | every checksummed run lies within one 512-byte chunk of the block |
| `AckPipeline.NilMeansAcknowledged` | hdfs/intrnl/transfer/block_write_stream.go:141-184 | the first `finish` returns nil only when every packet, the last one included, was acknowledged in order with every status SUCCESS, heartbeats aside |
| `AckPipeline.FailedIff` | hdfs/intrnl/transfer/block_write_stream.go:252-299 | over every run the ack loop fails if and only if an ack could not be read, reported a failure, or was not the next packet's; heartbeats count for nothing |
| `AckPipeline.FinishReturnsNilIff` | hdfs/intrnl/transfer/block_write_stream.go:141-184 | `finish` returns nil if and only if none of its writes failed and all of that held of the acks |
| `AckPipeline.NilIsReached` | hdfs/intrnl/transfer/block_write_stream.go:141-205 | for every orderly sequence of acks, heartbeats anywhere, there is a run in which `finish` returns nil |
| `AckPipeline.WindowIsBounded` | hdfs/intrnl/transfer/block_write_stream.go:188-205 | until an ack fails at most six packets are written and not acknowledged |
| `AckPipeline.WriterWaitsForAcks` | hdfs/intrnl/transfer/block_write_stream.go:252-299 | when the writer waits, the ack loop can move or waits for the ack of a packet already written |
| `AckPipeline.AckerWaitsForPackets` | hdfs/intrnl/transfer/block_write_stream.go:252-299 | when the ack loop waits for a packet, nothing holds the writer up |
| `AckPipeline.FailureDrains` | hdfs/intrnl/transfer/block_write_stream.go:294-299 | after a failure the ack loop empties the queue without waiting for the network |
| `FileWriter.BlockWriter.Write` | hdfs/intrnl/transfer/block_writer.go:66-91 | takes what fits in the block and reports its end exactly when bytes are left over or none fit |
| `FileWriter.BlockWriter.Close` | hdfs/intrnl/transfer/block_writer.go:105-120 | on success every byte of the block is stored if and only if the stream was open, or had nothing buffered and no packet lost |
| `FileWriter.RetriedCloseLosesAll` | hdfs/intrnl/transfer/block_writer.go:105-120 | for any bytes and any start in the block: a close that fails in its first write, called again, succeeds with nothing stored and the full length |
| `FileWriter.Writer.Flush` | hdfs/file_writer.go:201-211 | on success nothing is buffered |
| `FileWriter.Writer.FinalizeBlock` | hdfs/file_writer.go:290-312 | the length told to the namenode is that of the bytes the block was given, and of the bytes stored in it exactly if the block was not damaged by a failed close |
| `FileWriter.Writer.StartNewBlock` | hdfs/file_writer.go:247-288 | only a full block is replaced, by an empty one, and the namenode is told which block came before |
| `FileWriter.Writer.Write` | hdfs/file_writer.go:170-196 | the loop ends, exactly the reported bytes have gone into blocks, and all of them if and only if none of its calls fails, when no packet was lost before; after bytes were written the current block holds some of them |
| `FileWriter.Writer.Close` | hdfs/file_writer.go:216-245 | on success everything written is stored in finalized blocks if and only if none was missing before and the last block was not left, by a failed close, with bytes buffered or packets lost; it succeeds if no call fails |
| `FileWriter.WriteFile` | hdfs/file_writer.go:170-312 | writing a whole file succeeds if and only if none of the calls it makes fails; then the blocks concatenate to the input, all but the last exactly full and the last not empty if anything was written, each finalized with its length; and the namenode is asked for each block, told its length, and told that the file is complete, in that order and nothing else |
| `Failover.Datanodes.Next` | hdfs/intrnl/transfer/datanode_failover.go:36-63 | the first node that never failed, else the one with the oldest failure, and it is taken off the list |
| `Failover.BestIsUnique` | hdfs/intrnl/transfer/datanode_failover.go:36-63 | there is only one such choice |
| `Failover.TakenOnce` | hdfs/intrnl/transfer/datanode_failover.go:57-59 | the node taken and the nodes left are the nodes there were |
| `PacketStream.StarvedExactly` | hdfs/intrnl/transfer/block_read_stream.go:41-123 | over a new connection that does not fail, for all packets, chunk sizes and positions: skipping to the position and a read of any size there give nothing if and only if the packets starve the position |
| `PacketStream.SkipThenRead` | hdfs/intrnl/transfer/block_reader.go:173-185 | the same of a connection in use, whatever it has buffered |
| `PacketStream.DryStep` | hdfs/intrnl/transfer/block_reader.go:173-185 | each copy on the way to the position leaves that as it is, or ends the connection early when nothing would come |
| `PacketStream.DryEnd` | hdfs/intrnl/transfer/block_read_stream.go:41-123 | at the position, a read of any size gives nothing if and only if the connection is dry |
| `PacketStream.EmptyLastSuffices` | hdfs/intrnl/transfer/block_read_stream.go:41-45 | packets ended by an empty one starve exactly the positions at or past their end, for chunks that fit in the copy buffer |
| `PacketStream.ReachesWhatIsSent` | hdfs/intrnl/transfer/block_reader.go:173-185 | skipping gets exactly as far as the packets go, for chunks that fit in the copy buffer |
| `BlockReadStream.Stream.Read` | hdfs/intrnl/transfer/block_read_stream.go:41-123 | gives out the next bytes of the block whatever fails; without failures it is `ReadStep`, and at an end nothing is left if and only if nothing was buffered before |
| `BlockReadStream.EarlyEnd` | hdfs/intrnl/transfer/block_read_stream.go:41-80 | after a small read of a last packet that is not empty, the next read reports the end with the rest buffered |
| `BlockReadStream.Stream.StartPacket` | hdfs/intrnl/transfer/block_read_stream.go:138-162 | starting a packet loses and adds no byte |
| `BlockReader.Reader.ConnectNext` | hdfs/intrnl/transfer/block_reader.go:130-194 | one datanode leaves the list, and a stream it gives stands at the reader's position; a healthy one is refused exactly when it does not reach it |
| `BlockReader.Reader.Discard` | hdfs/intrnl/transfer/block_reader.go:171-185 | exactly the bytes before the position are skipped, also of a stream that ends early, which is a failure |
| `BlockReader.Reader.Read` | hdfs/intrnl/transfer/block_reader.go:63-116 | the bytes at the position, whichever datanodes fail; each entry is tried at most once, and it fails only after every one was connected to in vain; when no connection fails, a new reader fails if and only if none reaches the position, and otherwise gives nothing if and only if the first that does starves it; a reader in use gives nothing if and only if its connection is dry |
| `FileReader.Reader.NewBlockReader` | hdfs/file_reader.go:403-430 | the block that holds the position is found |
| `FileReader.Reader.Round` | hdfs/file_reader.go:197-221 | when nothing fails, a round that opens a block reader gives bytes if and only if the first connection to reach the position does not starve it |
| `FileReader.Reader.Read` | hdfs/file_reader.go:169-222 | exactly the file's bytes at the position, the end of file at its size and nowhere else, and an error only if closed, if a reader could not be set up or if one tried every replica in vain; nothing after all rounds only if the first datanode of every reader opened refused, could fail or starved it; when nothing fails, nothing after all rounds if and only if the open reader is dry and every reader that can be opened is starved |
| `FileReader.Reader.ReadSound` | hdfs/file_reader.go:169-222 | when nothing fails and the next reader to be opened is served, the loop, without a bound, ends with bytes and opens that reader exactly if there is no open one or it is dry, so that it takes at most two rounds |
| `FileReader.ReadStalls` | hdfs/file_reader.go:197-221 | a block of one last packet, on datanodes that do not fail, read from inside that packet: no number of rounds gives a byte |
| `FileReader.Reader.ReadMany` | hdfs/file_reader.go:169-222 | any sequence of reads gives one contiguous piece of the file, and when nothing fails and every reader is served it ends only at the end of the file |
| `FileReader.Reader.ReadAt` | hdfs/file_reader.go:225-248 | the bytes from the position on, as many as asked for unless the file ends, which is then reported, or a read fails; when nothing fails and every reader is served, all there is up to that many |
| `FileReader.Reader.Seek` | hdfs/file_reader.go:138-166 | moves to a position inside the file or changes nothing; the block reader is dropped exactly when the position changes |
| `FileReader.Reader.Close` | hdfs/file_reader.go:376-384 | the reader and its block reader are closed, after which `Read` and `Seek` refuse |
| `FileReader.SomeBlock` | hdfs/file_reader.go:403-430 | every position of the file lies in a block |
| `MemFs.Root.Rename` | sftp/request-example.go:196-255 | when it succeeds, and with what error it fails otherwise; that the tree is kept if and only if it fails, or neither the root nor a directory into its own subtree is renamed, or the root to itself; that then the whole subtree moves, file by file, in whatever order the map is walked, with no other entry lost or overwritten but a replaced empty directory or file |
| `MemFs.Root.MoveChildren` | sftp/request-example.go:233-246 | the loop moves every entry below the directory once, also when it meets entries it has put in itself |
| `MemFs.MovedTree` | sftp/request-example.go:196-255 | a tree with a subtree moved is a tree |
| `MemFs.IntoItselfBreaks` | sftp/request-example.go:231-254 | moving a directory below itself leaves no tree, whatever the walk does |
| `MemFs.Root.MoveInto` | sftp/request-example.go:235-252 | the loop in that case, over whatever keys the walk brings up |
| `MemFs.Root.MoveRoot` | sftp/request-example.go:235-252 | renaming the root moves no entry, adds one for the root, and gives the root its name |
| `MemFs.Root.RootMovedBreaks` | sftp/request-example.go:235-252 | after that the root is found under two paths, does not go by its own, and whatever is made in it is put below the new one |
| `MemFs.RenamedRootMisplaces` | sftp/request-example.go:196-276 | from an empty file system: the root renamed to "/a", then "/x" made, gives "/a/x" |
| `MemFs.Root.RenameNew` | sftp/request-example.go:165-172 | the RENAME request replaces nothing, and keeps the tree exactly when it fails or is within the limits; with what error it fails |
| `MemFs.Root.PutFile` | sftp/request-example.go:65-83 | a new entry in an existing directory exactly when the name is free, and the error otherwise |
| `MemFs.Root.OpenFile` | sftp/request-example.go:85-141 | the file a path leads to, emptied if asked, and no other file changed; where there is none and one may be created, a new one exactly at the canonical form of where the path's links end, if and only if that is free; and the error of each other case |
| `MemFs.Root.Create` | sftp/request-example.go:92-121 | a file is created where a chain of dangling links ends, if and only if that is free, and never through a link when it must be new |
| `MemFs.Root.Mkdir` | sftp/request-example.go:269-276 | one new directory and nothing else, keeping the tree |
| `MemFs.Root.Rmdir` | sftp/request-example.go:278-302 | removes a directory exactly when nothing lies in it, and says what else was the matter |
| `MemFs.Root.Link` | sftp/request-example.go:304-315 | the same file under a second path; never a directory; the error otherwise |
| `MemFs.Root.Symlink` | sftp/request-example.go:319-326 | one new link and nothing else |
| `MemFs.Root.Unlink` | sftp/request-example.go:328-346 | removes one entry exactly when it is not a directory, and says what else was the matter |
| `MemFs.Root.Fetch` | sftp/request-example.go:520-539 | follows links, five at most |
| `MemFs.LinkTargetIff` | sftp/request-example.go:520-539 | links lead to a path if and only if there is a chain of at most five links from the start, each at the path its predecessor names, ending there |
| `MemFs.ResolveIsTarget` | sftp/request-example.go:520-539 | what a path resolves to is what is found at the end of that chain |
| `MemFs.Root.CanonName` | sftp/request-example.go:494-507 | computes the canonical path |
| `MemFs.Root.CanonFacts` | sftp/request-example.go:494-507 | a canonical path lies in an existing directory, and canonical paths stay as they are |
| `MemFs.Root.CanonicalPath` | sftp/request-example.go:490-507 | however a path leads to a directory, the directory's name is its only path |
| `MemFs.Session` | sftp/request-example.go:65-346 | every run of operations, renames within their limits, ends in a tree whose directories know their paths, and that is what the operations, each with its condition of success, make of the empty file system |
| `MemFs.Root.Perform` | sftp/request-example.go:143-346 | each operation succeeds exactly under its condition and changes just the entries it names |
| `MemFs.Root.CanonIs` | sftp/request-example.go:494-507 | the canonical path is the one in the directory that the rest leads to |
| `Paths.PrefixIsSubtree` | sftp/request-example.go:238-241 | the prefix test on strings holds exactly for the paths below the directory, and for none when that is the root |
| `Paths.TrimAndJoin` | sftp/request-example.go:239-239 | trimming and joining strings is moving the path |
| `Scp.HandleUpload` | serv/scp.go:73-124 | the uploader's loop, over any splitting of the stream, does what its messages say, and when it fails has on disk what they made, the last file as far as it came |
| `Scp.UploadKeeps` | serv/scp.go:73-124 | whether it fails or not, every entry that was there is still there, and every directory a directory |
| `ScpScript.ScriptAccepted` | serv/scp.go:73-124 | every sequence of well-formed messages that can be followed and comes back to the top just at its end is accepted, with the disk it describes and nothing read past it |
| `ScpScript.AcceptedIsScript` | serv/scp.go:73-124 | and whatever is accepted begins with such a sequence, and what follows it is what was not read |
| `ScpScript.ParsedIs` | serv/scp.go:645-678 | a message that parses has three words, the second a number and the third a name |
| `Scp.Channel.FileData` | serv/scp.go:151-189 | exactly the announced bytes and the confirmation are taken off the channel; on a failure the file has what came of them |
| `Scp.Channel.NextUploadMessage` | serv/scp.go:609-627 | the next message, time messages skipped |
| `Scp.Channel.ReadMessage` | serv/scp.go:541-563 | the text up to the newline |
| `Scp.ParsedBack` | serv/scp.go:645-678 | size and name are parsed back from a message |
| `Scp.Download` | serv/scp.go:316-368 | files first, then directories, then the end message |
| `Scp.SendContent` | serv/scp.go:396-410 | the copying loop sends the whole file |
| `Scp.RunTree` | serv/scp.go:73-124 | the messages of a tree make the uploader create it and leave depth and destination as they were |
| `Scp.TreeAt` | serv/scp.go:126-149 | creating a tree puts at each path what the tree has there and changes nothing else |
| `Scp.TreeRecreated` | serv/scp.go:73-124 | the uploader on the downloader's stream recreates every path and content and stops at the root's end message, reading nothing past it |
| `Scp.CopyTree` | serv/scp.go:316-420 | downloading and uploading a tree copies it |

## Left out

- FileReader.Reader.Read: a parameter bounds the rounds, since the source's loop need not end; the list of blocks is given, so that a failure to fetch it is not among the causes of an error.
- FileReader.Reader.ReadAt: each of its reads has that bound too, so that it may stop short with nothing after all rounds.
- BlockReadStream.Stream.Read: checksums are taken to hold; a failed check returns no error on the small path and data with an error on the large one.
- BlockReadStream.Stream.ReadSmall: an empty last packet is taken not to pass the check against the checksum left over from the packet before; in the source a match would move the stream past its end, after which small reads give nothing and a large one is out of bounds.
- BlockReader.Reader.ConnectNext: dialling, the request and the answer are one step that may fail, and the global table of failures is arbitrary at each pick.
- MemFs.Root.Rename: paths are clean and absolute, as requests make them; an unclean target of a POSIX rename is not modelled. What a rename does to a file system whose root has been renamed already is not stated.
- MemFs.Session: passes over renames outside the limits.
- Scp.HandleUpload: permissions, quota and path confinement are taken to allow everything, and files are written in place, not through a temporary name; only the recursive form is modelled, not the choice of a file name for a single file.
- Scp.Download: symbolic links, special files and the text of file modes are left out; confirmation bytes that flow against the stream are not counted.
- ReadDir.ReadDir: entry names have no slash, and the limit on the length of a NAME packet is not part of this model.
- ServerPipeline.NothingStuck: delivery of the last responses at shutdown is not promised by the source, whose controller may stop while responses are buffered.
- The count returned by `File.WriteTo`, and `File.ReadFrom`, which may report success after a failed write.
- `sftp/server.go`: the same pipeline over direct system calls.
- Readdir of the in-memory file system: a hard link's other name is shown there.
- SASL, Kerberos, digest and AES connections, generated protobuf code, configuration, logging, REST, shells and port forwarding.
- Quota, permissions and login in `serv/` and `dataprovider/`.
- Deadlines, heartbeat timing and backoff: they would only be more nondeterministic steps.
