# fastcgi-daemon: stored requests, windowed files, retries, workers and codecs

A Dafny model of the parts of fastcgi-daemon whose implementation is far from its specification,
and proofs that the one meets the other:

* **Stored request image** (`StoredImage.dfy`, `StoredLaws.dfy`, `CutImage.dfy`, `RequestImpl.dfy`). A request is written as
  length-prefixed sections whose sizes are summed beforehand, by `serialize` in one go or by `attach`
  in stages around the body that a stream fills in place. `Image` and `Parse` are the specification;
  the class `RequestImpl` holds the code's loops. Main results: `SaveAndLoad` (the round trip through
  both methods), `AttachCached` (the second writer makes the same image), that parsing ends within
  the buffer on any bytes and leaves sound tables (`ParsedIsSound`), and exactly when an image that was
  cut short is noticed (`CutIsNoticedIff`).
* **Windowed storage** (`MMapFile.dfy`, `FileBuffer.dfy`, `DataBuffer.dfy`). A page-aligned mapping
  slides over a file. `FileBuffer` and `StringBuffer` answer alike for any window: reads, writes and
  searches are those of one flat byte string, and a view's segments partition it.
* **Delayed retry cache** (`CacheProtocol.dfy`, `CacheReplay.dfy`, `CacheDelay.dfy`, `CacheFiles.dfy`). A step system: pool threads save
  requests while one thread replays them, and every lock region and file-system call is a step. Main
  results: `RetrySafety`, `KeysIssuedOnce`; `SavedIsReplayedOnce`: from the link on, in every run, a
  saved request is on its way to being replayed or has been replayed, exactly once and as it was;
  `CanBeReplayed`: from every state it still can be; `NotReplayedEarly`: never before its delay has
  passed; `NothingLeftBehind`: no file of the cache is left without somebody to answer for it.
* **Worker pool** (`ThreadPool.dfy`). All interleavings of `start`, `stop`, `addTask`, `workMethod`
  with owed notifications and spurious wakeups: conservation, no lost wakeup, that accepted tasks are
  handled, bounded shutdown. The
  class's methods are the regions under the mutex, each proved to be one step.
* **Component loading** (`ComponentSet.dfy`). Re-entrant depth-first loading returns exactly on
  acyclic registries whose `onLoad`s do not throw, and leaves a topological order.
* **Codecs** (`UrlCodec.dfy`, `UrlLaws.dfy`, `Multipart.dfy`, `MultipartHeaders.dfy`,
  `MultipartRoundTrip.dfy`, `MultipartEnds.dfy`). Percent-encoding and form pairs, flat and segmented,
  in whatever way a client writes them; multipart bodies with CRLF or LF and with folded header lines:
  the round trip, and, told by the bytes, exactly when the parser hangs or refuses.
* **Uploads** (`Uploads.dfy`) puts these together: `attach` with the multipart parser, from a client's
  form to the stored image of a request that shows every argument and file.
* **Response and handleTask** (`Response.dfy`, `ResponseText.dfy`). Over any calls one header block goes
  out, fixed at the first call that sends; a client that reads the wire line by line finds in it the
  headers, the cookies, the status and the body, or one error page that the exception decides.
* **Config variables** (`ConfigVars.dfy`). `resolveVariables` ends on every text exactly when no
  variable refers back to itself, on one text exactly when none of its references leads to such a
  variable, and what it ends with is the text's expansion.

`Bytes.dfy` holds byte strings and leftmost search, `Alphabet.dfy` tables of letters and digits. Classes stand where the source updates objects in
place; their methods are proved against functions, and lemmas prove what matters about those functions.

## What the code does not do

Six places where the code falls short of what one would expect; each is modelled as it is.

* `parseMultipart` never returns when a closing delimiter is followed by another boundary:
  `EndsUnlessClosedEarly` gives the exact condition on all inputs, `ClosedEarlyHangs` a family of
  bodies that meet it, and `SmallestHang` one of ten bytes.
* `parse` takes some images that were cut short for whole ones: `CutIsNoticedIff` says exactly which.
* In a multipart body whose lines end in LF alone, a content that holds CRLF CRLF, or ends in CR, does
  not come through: `LfContentIff` and `ClassifyShows` say that it is exactly those.
* `FileBuffer::trim` tests the position instead of the byte at the right edge: `TrimsAgreeIff` says
  exactly when that makes no difference; `TrailingSpaceRuinsName` shows a part's name it spoils.
* Segmented `urldecode` splits an escape that reaches over a window boundary: `EncodedDecodesIff` and
  `RenderedFormIff` say exactly when encoded text and forms survive; `StraddledEscape` shows, for every
  window, a letter that does not.
* `resolveVariables` loops for ever on cyclic variables, and on two values that form a reference
  between them: `EndsIffAcyclic`, `TextEndsIff`, `StrayDollarLoops`.

## Model

| member | source | states |
|---|---|---|
| StoredImage.RoundTrip | library/requestimpl.cpp:515-806 | Parsing the image of any well-formed request that fits in 64 bits gives back the same headers, cookies, variables, body, files and arguments; also where a file is the empty view that a part without an empty line leaves, whose offset goes around. |
| StoredImage.ParseImage | library/requestimpl.cpp:694-806 | The same in views: which stretch of the image becomes the body, and each file a slice of it. |
| StoredImage.FileContentSurvives | library/requestimpl.cpp:647-662 | A file's parsed view shows the bytes its entry denoted in the original body. |
| StoredImage.ViewAndBack | library/requestimpl.cpp:770-775 | A stored offset becomes a view inside the body, or the empty one at 0, from which the same offset is computed. |
| StoredImage.BodyInImage | library/requestimpl.cpp:586-597 | Where in the image the body's bytes stand. |
| StoredImage.BodyIsFarIn | library/requestimpl.cpp:515-568 | A body stands behind at least 32 bytes of prefixes, and behind 33 when there is a variable. |
| StoredImage.FieldsSizeIsExact | library/requestimpl.cpp:616-628 | The size summed beforehand for a table is the number of bytes its entries take. |
| StoredImage.FilesSizeIsExact | library/requestimpl.cpp:599-614 | The same for the file table. |
| StoredImage.ParseInt | library/requestimpl.cpp:678-683 | On any bytes the position never goes back, never passes the end, and advances while any byte is left. |
| StoredImage.ParseString | library/requestimpl.cpp:685-692 | The same for strings, cut short or not. |
| StoredImage.ParseFields | library/requestimpl.cpp:702-707 | The section loop ends on any bytes, at or behind the announced end and within the buffer. |
| StoredImage.ParseFiles | library/requestimpl.cpp:765-777 | The file loop ends on any bytes within the buffer; no file view ends behind the store. |
| StoredImage.ParseBody | library/requestimpl.cpp:745-755 | The body's view lies within the buffer even when a length prefix wraps. |
| StoredImage.ParseSectionHolds | library/requestimpl.cpp:694-743 | A section that holds a table with distinct keys is read as that table, to exactly its end. |
| StoredImage.ParseFileSectionHolds | library/requestimpl.cpp:757-779 | The same for file entries, whose offsets become views of the body. |
| StoredLaws.IntLayout | library/requestimpl.cpp:570-575 | Integers lie in eight bytes, the least significant first. |
| StoredLaws.HeaderKeysIff | library/requestimpl.cpp:706-706 | Header names are the same key exactly when they agree letter by letter up to case, by a table of letters. |
| StoredLaws.SectionReads | library/requestimpl.cpp:694-743 | Whatever table was written, with repeated keys or not, and whatever it is read into: keys come out distinct, each with the value that stood first; arguments are all kept, in order. |
| StoredLaws.ParsedIsSound | library/requestimpl.cpp:694-806 | On any bytes: keys of every map are distinct, strings fit, every file has a name, and nothing is taken out of the tables read into. |
| StoredLaws.StringReads | library/requestimpl.cpp:685-692 | A string is refused when there is no room for it, read when it is there, and filled up with zeros when the bytes end early. |
| StoredLaws.OverrunIsRefused | library/requestimpl.cpp:696-752 | A section that says it is longer than what is left is refused. |
| StoredLaws.FileEntryReads | library/requestimpl.cpp:765-776 | A file entry is refused when its content would end behind the store, then when it has no name. |
| CutImages.CutIsNoticedIff | library/requestimpl.cpp:694-806 | An image cut short anywhere is taken for whole exactly when the cut falls in front of or into a section's length and what is left of the length is zero; then the sections before it come out as saved and the others empty. |
| CutImages.LengthCut | library/requestimpl.cpp:678-683 | A length cut short announces what is not there, unless all its remaining bytes are zero. |
| Requests.SerializeInt | library/requestimpl.cpp:570-575 | Exactly eight bytes change, and they are the integer's. |
| Requests.SerializeString | library/requestimpl.cpp:577-584 | Exactly the length and the bytes are written at the position. |
| Requests.SerializeFields | library/requestimpl.cpp:546-551 | The loop writes the table's encoding and nothing else. |
| Requests.FieldsSerializedSize | library/requestimpl.cpp:616-628 | The summing loop computes the encoding's exact length. |
| Requests.FilesSerializedSize | library/requestimpl.cpp:599-614 | The same for files. |
| Requests.SerializeFile | library/requestimpl.cpp:654-659 | One entry: three strings, the offset into the body and the length. |
| Requests.SerializeFiles | library/requestimpl.cpp:647-662 | The whole file section at the position, everything else unchanged. |
| Requests.CopySegments | library/requestimpl.cpp:590-595 | Copying the source segment by segment writes its logical bytes once. |
| Requests.CopyAll | library/requestimpl.cpp:590-595 | The loop itself, from an iterator anywhere at the start of a view. |
| Requests.SerializeBuffer | library/requestimpl.cpp:586-597 | A length and the source's bytes, whatever stores the two views lie on. |
| Requests.ReadBody | library/requestimpl.cpp:440-448 | The in-place read fills the body front to back with the stream's bytes, each once, and nothing outside it. |
| Requests.FillAll | library/requestimpl.cpp:441-445 | The loop itself: the store changes by exactly one splice of the input. |
| Requests.RequestImpl.SerializeEnv | library/requestimpl.cpp:515-568 | Sizes the buffer and writes the three environment sections. |
| Requests.RequestImpl.SerializeHead | library/requestimpl.cpp:641-642 | Environment and body are written, with exactly the room left that files and arguments take. |
| Requests.RequestImpl.Serialize | library/requestimpl.cpp:630-645 | The buffer ends up holding exactly the request's image; the request is unchanged. |
| Requests.RequestImpl.StageBody | library/requestimpl.cpp:431-448 | Environment, body length and the body read in place; fails exactly when the stream is too short. |
| Requests.RequestImpl.Grow | library/requestimpl.cpp:468-470 | Growing the buffer keeps the earlier bytes. |
| Requests.RequestImpl.StageTail | library/requestimpl.cpp:467-473 | Appending files and arguments completes the same image that serialize writes. |
| Requests.RequestImpl.AttachCached | library/requestimpl.cpp:428-474 | The staged writer leaves exactly the image of the request it built, for any parser that stays in the body; it fails on a short stream or when the parser throws. |
| Requests.RequestImpl.ReadAll | library/requestimpl.cpp:798-806 | parse through the buffer's own reads is Parse on the bytes in view. |
| Requests.RequestImpl.ReadEnv | library/requestimpl.cpp:800-802 | The first three sections, each from where the one before ended. |
| Requests.RequestImpl.ReadSection | library/requestimpl.cpp:694-709 | A section loop through the buffer is ParseSection. |
| Requests.RequestImpl.ReadFiles | library/requestimpl.cpp:757-779 | The file loop through the buffer is ParseFileSection. |
| Requests.TablesMean | library/requestimpl.cpp:745-779 | Parsed views over their store show the request that Meaning describes. |
| Requests.SaveAndLoad | library/requestimpl.cpp:630-806 | What one object serializes into any buffer another parses back to an equal request. |
| MMapFiles.RoundWindowIsLeast | request-cache/mmap_file.cpp:51-64 | The rounded window is the least positive page multiple that covers the request. |
| MMapFiles.MMapFile.CheckWindow | request-cache/mmap_file.cpp:51-64 | The imperative rounding is RoundWindow. |
| MMapFiles.MMapFile.constructor | request-cache/mmap_file.cpp:26-49 | The first window is mapped, page aligned, and size is the file's. |
| MMapFiles.MMapFile.MapRange | request-cache/mmap_file.cpp:158-179 | The address handed out lies in the mapping and shows the position asked for; an existing mapping is kept; fails only for an empty mapping. |
| MMapFiles.MMapFile.MapSegment | request-cache/mmap_file.cpp:152-156 | The segment's window is mapped from its page boundary. |
| MMapFiles.MMapFile.At | request-cache/mmap_file.cpp:111-119 | The byte of the flat file, or out of range exactly past its end. |
| MMapFiles.MMapFile.AtRange | request-cache/mmap_file.cpp:121-129 | All of the range is mapped and below size; out of range exactly when it is not in the file. |
| MMapFiles.MMapFile.AtSegment | request-cache/mmap_file.cpp:131-138 | The non-empty rest of the window that holds the position, clipped to the file. |
| MMapFiles.MMapFile.Resize | request-cache/mmap_file.cpp:101-109 | The file keeps the common prefix and grows with zeros; the window stays. |
| MMapFiles.MMapFile.Clone | request-cache/mmap_file.cpp:66-76 | A second mapping of the same file with the same window. |
| Buffers.FindIn | library/string_buffer.cpp:41-50 | The leftmost occurrence that lies within [begin, end), or end. |
| Buffers.FileBuffer.Find | request-cache/file_buffer.cpp:78-113 | For every window and pattern the windowed search is FindIn on the flat contents. |
| Buffers.FileBuffer.StretchSearch | request-cache/file_buffer.cpp:96-103 | What one overlapping stretch establishes about the whole range. |
| Buffers.FileBuffer.Read | request-cache/file_buffer.cpp:36-55 | Chunked reading is one slice, or fails exactly out of range. |
| Buffers.FileBuffer.Write | request-cache/file_buffer.cpp:57-76 | Chunked writing is one slice update, or fails and changes nothing. |
| Buffers.FileBuffer.Chunk | request-cache/file_buffer.cpp:129-132 | A non-empty run of mapped bytes up to the window's end. |
| Buffers.FileBuffer.SegmentEnd | request-cache/file_buffer.cpp:134-138 | The next window boundary. |
| Buffers.FileBuffer.GetCopy | request-cache/file_buffer.cpp:157-164 | A copy sees the same file through its own mapping. |
| Buffers.StringBuffer.Find | library/string_buffer.cpp:41-50 | The flat search is FindIn too. |
| Buffers.StringBuffer.Write | library/string_buffer.cpp:30-34 | A slice update. |
| DataBuffers.SegmentsPartition | library/data_buffer.cpp:265-317 | Segments are non-empty, adjacent, and cover exactly [begin, end). |
| DataBuffers.SegmentsStayInWindows | request-cache/file_buffer.cpp:134-138 | No segment of a file crosses a window boundary. |
| DataBuffers.PiecesOfSegments | library/data_buffer.cpp:284-292 | Each segment shows exactly the bytes it covers. |
| DataBuffers.PiecesAreTheView | library/data_buffer.cpp:251-259 | The segments' bytes, in order, are the view. |
| DataBuffers.DataBuffer.ToString | library/data_buffer.cpp:251-259 | Walking the segments yields the logical bytes. |
| DataBuffers.DataBuffer.Read | library/data_buffer.cpp:57-63 | The bytes in view from the position, clipped, perhaps none. |
| DataBuffers.DataBuffer.Write | library/data_buffer.cpp:65-71 | The part that fits is placed; nothing outside the view changes. |
| DataBuffers.DataBuffer.Resize | library/data_buffer.cpp:93-97 | The store ends with the view; earlier bytes stay. |
| DataBuffers.DataBuffer.SubView | library/data_buffer.cpp:21-27 | A view is refused exactly when it ends behind the store. |
| DataBuffers.DataBuffer.Split | library/data_buffer.cpp:143-181 | Splits at the leftmost delimiter, alike on both stores. |
| DataBuffers.SplitViewIsCut | include/details/range.h:161-174 | Splitting a view is splitting the bytes it shows. |
| DataBuffers.CutAtFirst | include/details/range.h:106-108 | The split is at the first delimiter, or there is none. |
| DataBuffers.SegmentIterator.constructor | library/data_buffer.cpp:265-277 | An iterator starts with all segments of its view to visit. |
| DataBuffers.SegmentIterator.Next | library/data_buffer.cpp:300-317 | One segment is taken off what is left, and the last leaves the end iterator. |
| CacheReplay.SavedIsReplayedOnce | request-cache/file_cache.cpp:161-309 | From the link on, in every run, the saved request is pending or has been replayed, exactly once, with the same contents. |
| CacheReplay.ReplayedOnce | request-cache/file_cache.cpp:198-309 | The same from any reachable state in which a request is pending: nothing is lost or doubled. |
| CacheReplay.CanBeReplayed | request-cache/file_cache.cpp:245-309 | From every such state its saver, the clock and the handler alone can bring it to be replayed as it was saved. |
| CacheReplay.DueIsReplayed | request-cache/file_cache.cpp:280-309 | When the handler is idle and the first entry is due, taking, opening, registering and rebuilding are enabled in turn and yield the saved request. |
| CacheReplay.StaysPending | request-cache/file_cache.cpp:132-318 | No step loses a pending request: it stays its saver's, in waiting_, or with the handler, unless that step replays it. |
| CacheReplay.StaysSettled | request-cache/file_cache.cpp:296-309 | A key that was replayed or dropped is never replayed again. |
| CacheDelay.QueuedForItsDelay | request-cache/file_cache.cpp:198-203 | In every run, a request destroyed with a delay is queued as one entry more, due that delay after it is queued. |
| CacheDelay.OneEntryMore | request-cache/file_cache.cpp:198-203 | Queueing adds one entry, with its link, its number of runs and its due time, behind those due no later; the others stay. |
| CacheDelay.NotReplayedEarly | request-cache/file_cache.cpp:198-309 | In every run, a request destroyed at some time with a delay is not rebuilt before both have passed. |
| CacheDelay.LinkedOnlyIf | request-cache/file_cache.cpp:205-243 | A request is retried only if it asked for a delay and has retries left. |
| CacheDelay.SaveGoesOn | request-cache/file_cache.cpp:205-243 | And if it did, every step of its own but a failing link brings it nearer to being linked as it was: it is not given up. |
| CacheDelay.RetryIsPossible | request-cache/file_cache.cpp:205-309 | Every such request can be saved, and from there replayed, once and as it was. |
| CacheFiles.NothingLeftBehind | request-cache/file_cache.cpp:132-318 | In every run each name in the cache directory is some request's own or leads to one that is to be replayed; with no request and nothing waiting the directory is empty. |
| CacheFiles.EventNoLeak | request-cache/file_cache.cpp:132-318 | No step of any thread leaves a file without somebody to answer for it. |
| CacheProtocol.RetrySafety | request-cache/file_cache.cpp:192-309 | In every interleaving: no key is waiting twice or waiting and active, waiting keys name files with the saved image, retries lie in 1..max, no request runs more than 1 + max times, the first entry is due first. |
| CacheProtocol.KeysIssuedOnce | request-cache/file_cache.cpp:27-62 | With a clock that does not go back, no key is issued twice in any run. |
| CacheProtocol.NextKeyIsNew | request-cache/file_cache.cpp:29-37 | The next key of a thread differs from every key issued. |
| CacheProtocol.EventKeeps | request-cache/file_cache.cpp:132-318 | Every step of every thread keeps the protocol's invariant. |
| CacheProtocol.RunKeeps | request-cache/file_cache.cpp:132-318 | So does every run. |
| CacheProtocol.RunGrows | request-cache/file_cache.cpp:161-190 | Over any run issued keys stay issued, settled keys settled, and the request saved under a key stays the same. |
| CacheProtocol.JobEventSteps | request-cache/file_cache.cpp:132-254 | A request's own step touches only keys in its charge and keeps its own state and the tables sound. |
| CacheProtocol.ParseNeverFails | request-cache/file_cache.cpp:308-313 | Replaying never meets a file that parse rejects. |
| CacheProtocol.RebuiltIsSaved | request-cache/file_cache.cpp:300-308 | The file the handler opened denotes the request linked under its key. |
| CacheProtocol.EnqueueAt | request-cache/file_cache.cpp:198-203 | Where the multimap inserts: behind entries due no later, before entries due later. |
| CacheProtocol.InsertKeepsWaiting | request-cache/file_cache.cpp:198-203 | Insertion keeps keys distinct, due times ascending and every entry's file intact. |
| CacheProtocol.PopKeeps | request-cache/file_cache.cpp:280-294 | Taking the least entry keeps the invariant. |
| CacheProtocol.RebuildKeeps | request-cache/file_cache.cpp:296-309 | Rebuilding a request hands the key over from the handler to it. |
| CacheProtocol.LinkOwn | request-cache/file_cache.cpp:161-173 | Linking gives the saving request a second, fresh name for the same image. |
| CacheProtocol.CloseTables | request-cache/file_buffer.h:16-22 | Releasing the body unlinks only the request's own name, and no table is left pointing at it. |
| CacheProtocol.FrameKeepsJob | request-cache/file_cache.cpp:132-318 | A step that touches only other requests' keys leaves a request's own state intact. |
| CacheProtocol.OthersUntouched | request-cache/file_cache.cpp:132-318 | A request's own step leaves waiting entries, the handler and all other requests as they were. |
| ThreadPools.PoolConservation | include/details/thread_pool.h:94-173 | In every interleaving the tasks accepted are those of the calls that found room, they are those taken, in order, then the queue; each is at exactly one place; good and bad are the tasks that ended so; bounds hold. |
| ThreadPools.AcceptedArePushed | include/details/thread_pool.h:94-112 | In every run the tasks accepted are those of the calls that found the pool started and room in its queue, in order. |
| ThreadPools.OutcomesCounted | include/details/thread_pool.h:141-155 | Each of the two counters is the number of tasks that ended so, less those not yet brought back. |
| ThreadPools.WorkIsOpen | include/details/thread_pool.h:123-173 | While an accepted task is not recorded some thread of a started pool can go on. |
| ThreadPools.WorkIsDone | include/details/thread_pool.h:123-173 | And every such step leaves less to do. |
| ThreadPools.AllCanBeHandled | include/details/thread_pool.h:94-173 | So from every state of a started pool with threads all accepted tasks can be handled. |
| ThreadPools.NoLostWakeup | include/details/thread_pool.h:94-166 | While a worker is parked the queue is no longer than owed notifications plus workers woken; a queued task never sits with all asleep. |
| ThreadPools.TakesTheOldest | include/details/thread_pool.h:163-165 | A worker takes the oldest task, and one nobody has had. |
| ThreadPools.EventKeeps | include/details/thread_pool.h:65-179 | Every step keeps the invariant. |
| ThreadPools.ShutdownIsBounded | include/details/thread_pool.h:82-88 | After stop nobody is or becomes parked, and all workers together take at most two steps each. |
| ThreadPools.ShutdownCompletes | include/details/thread_pool.h:90-92 | Until all have left some worker can step; then nothing is in hand and good + bad + queue = accepted. |
| ThreadPools.ThreadPool.Launch | include/details/thread_pool.h:65-80 | start is one step: all threads are made, or none if already started; nothing else changes. |
| ThreadPools.ThreadPool.Halt | include/details/thread_pool.h:82-88 | stop is one step: the flag falls and all parked workers are woken. |
| ThreadPools.ThreadPool.AddTask | include/details/thread_pool.h:94-112 | An accepted task is queued behind the others, a refused one changes neither the queue nor what was accepted, and which it is depends on started and the queue's length; a notification is owed either way. |
| ThreadPools.ThreadPool.WorkRegion | include/details/thread_pool.h:141-166 | The region under the mutex is one step: record good or bad, then leave, park or take the oldest task. |
| ComponentSets.ComponentSet.SendOnLoadToComponents | library/componentset.cpp:88-93 | Returns exactly when there is no dependency cycle and no onLoad throws; then all components are on the stack. |
| ComponentSets.ComponentSet.SendOnLoad | library/componentset.cpp:95-113 | Keeps the stack topological and every onLoad begun at most once; throws only for a cycle or a throwing onLoad. |
| ComponentSets.ComponentSet.Find | library/componentset.cpp:52-64 | A component found is loaded before it is handed out. |
| ComponentSets.ComponentSet.OnLoad | library/componentset.cpp:102-104 | When an onLoad returns, all its dependencies are loaded. |
| ComponentSets.ComponentSet.SendOnUnloadToComponents | library/componentset.cpp:115-129 | Unloads in reverse order of loading. |
| ComponentSets.TopologicalRefutesCycle | library/componentset.cpp:96-100 | No member of a cycle can be on the stack. |
| ComponentSets.ChainClosesCycle | library/componentset.cpp:98-100 | The exception is right: the loads under way form a cycle. |
| ComponentSets.UnloadOrder | library/componentset.cpp:115-129 | No component is unloaded before one that depends on it, and none twice. |
| UrlCodec.UrlRoundTrip | library/util.cpp:28-92 | urldecode undoes urlencode on every byte string. |
| UrlCodec.UrlEncode | library/util.cpp:28-57 | The encoding loop is Encode. |
| UrlCodec.UrlDecode | library/util.cpp:59-84 | The decoding loop appends Decode of its range, which the rows of UrlLaws determine. |
| UrlLaws.DecodePlus | library/util.cpp:63-65 | Wherever no escape is cut, a plus sign is decoded to a space and divides the text in two. |
| UrlLaws.DecodePlain | library/util.cpp:79-81 | Any byte that is neither plus nor percent is itself. |
| UrlLaws.DecodeHex | library/util.cpp:66-74 | A percent sign and two digits of either case, by tables of digits, are the byte of that value; letters behind F count on. |
| UrlLaws.DecodeShort | library/util.cpp:75-77 | A percent sign with fewer than two bytes behind it stays. |
| UrlLaws.EncodedByte | library/util.cpp:34-53 | Which bytes urlencode leaves alone, by tables of characters, and the two upper-case digits of the others. |
| UrlLaws.EncodeConcat | library/util.cpp:28-57 | And it does so byte by byte. |
| UrlLaws.SpelledIsRead | library/util.cpp:59-84 | However a client writes a string, each byte as itself, as an escape in either case, or a space as a plus sign, urldecode gives it back. |
| UrlLaws.EncodeSpells | library/util.cpp:28-57 | What urlencode writes is one of those ways. |
| UrlLaws.FormConcat | library/util.cpp:105-126 | A separator divides a form in two, wherever it stands. |
| UrlLaws.OnePair | library/util.cpp:112-116 | Between separators there is one pair, cut at its first equals sign, or with an empty value; none when the name is empty. |
| UrlLaws.FormIsRead | library/util.cpp:105-126 | However a client writes its pairs, those with a name are read, in order. |
| UrlCodec.EncodedHasNoSeparators | library/util.cpp:40-53 | Encoded text holds no '&' or '=' and is empty only for the empty string. |
| UrlCodec.CleanCutsDecodeFlat | library/util.cpp:94-103 | Decoding piece by piece is decoding the whole when no piece but the last ends inside an escape. |
| UrlCodec.PiecewiseIsFlatIff | library/util.cpp:94-103 | On text whose escapes are complete, that is exactly when. |
| UrlCodec.WindowsCutCleanlyIff | library/util.cpp:94-103 | The condition as one on the text: no escape reaches over a window boundary. |
| UrlCodec.SegmentedDecodeIsFlat | library/util.cpp:94-103 | Segmented decoding agrees with flat decoding if, and on text whose escapes are complete only if, no escape reaches over a window boundary. |
| UrlCodec.EncodeIsEscaped | library/util.cpp:28-57 | What urlencode writes is such text. |
| UrlCodec.EncodedDecodesIff | library/util.cpp:94-103 | Segmented decoding of encoded text gives the original exactly when no escape reaches over a window boundary. |
| UrlCodec.StraddledEscape | library/util.cpp:98-101 | For every window size: an escaped letter whose percent sign is a window's last byte is not decoded. |
| UrlCodec.UrlDecodeBuffer | library/util.cpp:94-103 | The segmented loop decodes the view's pieces. |
| UrlCodec.FormRoundTrip | library/util.cpp:105-126 | Parsing encoded pairs gives back the pairs with a non-empty key, in order. |
| UrlCodec.ParseRange | library/util.cpp:105-126 | The flat loop is ParseForm. |
| UrlCodec.ParseBuffer | library/util.cpp:128-146 | The loop over buffer views is FormOfView. |
| UrlCodec.SegmentedFormIsFlat | library/util.cpp:128-146 | A form read from a file has the pairs a flat reader finds when no escape reaches over a window boundary. |
| UrlCodec.RenderedFormIff | library/util.cpp:128-146 | A rendered form with named pairs, read from a file, is the form that was written exactly when none of its escapes reaches over a window boundary. |
| UrlCodec.PairIff | library/util.cpp:134-139 | The same for one pair. |
| UrlCodec.FormFromMemory | library/util.cpp:128-146 | Read from memory it always is, less the pairs without a name. |
| Multipart.ParseLine | library/parser.cpp:148-165 | The header-line loop is Line. |
| Multipart.ParseHeaders | library/parser.cpp:174-197 | The nested loops that join continued lines are Headers, of which HeadersShow says what folded lines mean. |
| Multipart.ParsePart | library/parser.cpp:167-214 | A part is an argument, a file unless its key has one, or nothing. |
| Multipart.ParseMultipart | library/parser.cpp:216-248 | The loop is Body, which says of every input whether it is parsed, refused, or looked at for ever. |
| Multipart.FilesAreSlices | library/parser.cpp:206-208 | Whatever the bytes, an uploaded file is a slice of the body, or its part had no blank line. |
| Multipart.TrimsAgreeIff | request-cache/file_buffer.cpp:115-127 | The two stores trim a view alike exactly when all bytes from the edge that positions dictate are spaces and the one before is not. |
| Multipart.TrimRightOfFileStops | request-cache/file_buffer.cpp:123-125 | Where the file's right side stops depends on the end position alone. |
| Multipart.FileTrimLosesAByte | request-cache/file_buffer.cpp:123-125 | Ending at position 10 a letter is trimmed. |
| Multipart.TrimN | library/data_buffer.cpp:128-141 | The result stays inside the view. |
| MultipartRoundTrip.MultipartRoundTrip | library/parser.cpp:148-248 | Any list of parts rendered with CRLF or with LF, header lines folded anywhere behind a semicolon or not, and a closing delimiter parses, in memory or behind position 32 of a file, to exactly the arguments in order and, per key, the first file with its bytes and no content type. |
| MultipartRoundTrip.BehindShows | library/parser.cpp:216-248 | The same from behind any boundary, for any parts still to come. |
| MultipartRoundTrip.PartShows | library/parser.cpp:167-214 | A rendered part adds just its argument or file. |
| MultipartHeaders.HeadersShow | library/parser.cpp:174-197 | A header block says what its lines say, in order, each joined with all its continuations, for both line ends. |
| MultipartHeaders.UnfoldTakesLine | library/parser.cpp:175-195 | A header line is taken up to its last continuation, and no further. |
| MultipartHeaders.ContinuedIsHeaderLine | library/parser.cpp:183-185 | A first physical line and any number of continuations, each beginning with a space or a tab, make such a line. |
| MultipartHeaders.LineShows | library/parser.cpp:148-165 | What a line says of name, file name and content type is decided by its bytes, wherever it lies. |
| MultipartRoundTrip.DispositionLabels | library/parser.cpp:148-165 | The disposition line, folded or not behind any of its semicolons, yields the name and the file name without their quotes. |
| MultipartRoundTrip.LfContentIff | library/parser.cpp:171-173 | With LF, a content comes through the blank line whole exactly when CRLF CRLF is not in it. |
| MultipartRoundTrip.ClassifyShows | library/parser.cpp:221-239 | What stands between two line ends is taken whole, unless they are LF and it ends in CR. |
| MultipartRoundTrip.BoundaryFound | library/parser.cpp:220-220 | The boundary is first found where it was put. |
| MultipartRoundTrip.TrailingSpaceRuinsName | library/parser.cpp:163-163 | Behind position 32 of a file a space at the end of a disposition line leaves a quote at the end of the name; in memory it does not. |
| MultipartEnds.EndsUnlessClosedEarly | library/parser.cpp:219-242 | On any bytes: cut at its boundaries, the body leads through parts and empty texts to a closing delimiter in front of a boundary exactly when the parser hangs, and to anything else it cannot pass exactly when it throws. |
| MultipartEnds.ClosedEarlyHangs | library/parser.cpp:230-232 | Any well-formed parts, the closing delimiter and one more boundary make it hang, whatever follows. |
| MultipartEnds.SmallestHang | library/parser.cpp:230-232 | A body of ten bytes does. |
| MultipartEnds.ClassifyByBytes | library/parser.cpp:220-245 | What stands before a boundary is passed exactly when it is empty or framed by line ends. |
| MultipartEnds.ClosingIff | library/parser.cpp:221-232 | A closing stretch is two dashes and a line end, nothing else. |
| MultipartEnds.StopsBehind | library/parser.cpp:219-247 | Where the parser comes to is decided boundary by boundary. |
| Uploads.AttachForm | library/requestimpl.cpp:412-474 | From a client's rendered form to the stored image: every argument in order and, per key, the first file with its bytes is in the request whose image the cache file holds. |
| Uploads.Attach | library/requestimpl.cpp:412-474 | On any body with which the parser comes to an end: fails exactly on a short stream or a malformed body, else the image of a request with that body is left. |
| Uploads.ParsedInBody | library/parser.cpp:206-208 | On any bytes the parser's files are slices of the body or empty, as attach needs. |
| Uploads.ParsedUnlessMalformed | library/parser.cpp:227-241 | Where it comes to an end it throws exactly on malformed bodies. |
| Uploads.RenderedIsParsed | library/parser.cpp:216-248 | A rendered form yields the views that show its files. |
| Uploads.EntriesShow | library/requestimpl.cpp:651-660 | Views that show what was sent become stored entries that do. |
| Responses.WrittenOnce | library/requestimpl.cpp:311-383 | Over any sequence of calls the wire is empty until one sends, and then is one header block, fixed by the setters before it, and body bytes. |
| Responses.TaskAnswers | library/request_thread_pool.cpp:27-101 | handleTask always leaves headers sent, rethrows exactly when a handler threw after they went out, and answers an earlier throw with one page alone: an HttpException's own status, or 500 and what was thrown unless HEAD. |
| Responses.AnswerIsAnError | library/request_thread_pool.cpp:43-91 | The error answer by kind of exception: one block without the handlers' headers, the page of its status, and behind it, unless HEAD, the message of a standard exception or a fixed text. |
| Responses.InsertReplaces | library/requestimpl.cpp:312-319 | Of each cookie name the last set stays, in order of name. |
| Responses.AssignReplaces | library/requestimpl.cpp:359-362 | One header of each name, whatever the case; others are untouched. |
| Responses.EveryHeaderOnce | library/requestimpl.cpp:483-488 | In whatever order the table is walked, every header goes out once. |
| Responses.SetAllKeepsTables | library/requestimpl.cpp:311-366 | Whatever is set, headers stay one for each name and cookies in order. |
| Responses.Request.SendHeaders | library/requestimpl.cpp:476-499 | Piece by piece, exactly the block goes out, once. |
| Responses.Request.SendError | library/requestimpl.cpp:335-356 | Drops headers and cookies, sends the block and the page, or throws. |
| Responses.Request.Write | library/requestimpl.cpp:368-383 | Headers first; body bytes unless the method is HEAD. |
| Responses.Request.HandleRequest | library/request_thread_pool.cpp:38-38 | A handler's calls up to the first exception that leaves it. |
| Responses.Request.HandleTask | library/request_thread_pool.cpp:27-101 | The nested error paths are Task, whose outcome TaskAnswers determines. |
| ResponseText.WireIsRead | library/requestimpl.cpp:476-499 | A client that reads the wire line by line finds the headers that were set before the first byte, the status, the cookies, and as the body all that was written, or nothing for HEAD. |
| ResponseText.LinesAreRead | library/requestimpl.cpp:482-496 | Header lines, the empty line and a body are read back as written. |
| ResponseText.BlockIsRead | library/requestimpl.cpp:482-496 | So is a block with its cookies. |
| ResponseText.ErrorIsRead | library/requestimpl.cpp:335-356 | The error answer is read as two headers and the page. |
| ResponseText.ErrorHeaders | library/requestimpl.cpp:335-356 | Its headers are a content type of text/html and the status. |
| ResponseText.StatusIsRead | library/requestimpl.cpp:480-480 | The status line is the number up to its first space and the reason behind it, on one line. |
| ResponseText.DecimalIsRead | library/requestimpl.cpp:480-480 | The number is printed in decimal digits without leading zeros. |
| ResponseText.ReasonsAreTheTable | library/parser.cpp:37-68 | Which reason each status has, and that no others have one. |
| ResponseText.BeforeByBytes | library/requestimpl.cpp:312-319 | Cookie names are ordered by the first byte in which they differ, a name before its continuations. |
| ResponseText.MarkedByCalls | library/requestimpl.cpp:505-508 | A request is processed exactly when some call marked it. |
| ResponseText.HandlersInTurn | library/request_thread_pool.cpp:36-40 | Handlers behind one that marked the request or threw do not run; else the next one does. |
| ResponseText.HandlerEnds | library/request_thread_pool.cpp:38-38 | A handler makes its calls up to its own throw, or up to an unguarded call that comes too late. |
| ConfigVars.ResolveVariables | library/config.cpp:191-211 | The loop ends, with no reference left or at a name without a variable. |
| ConfigVars.EndsIffAcyclic | library/config.cpp:191-200 | For well-formed, closed variables it ends on every text exactly when no set of variables refers back to itself. |
| ConfigVars.TextEndsIff | library/config.cpp:191-200 | For each text: it ends exactly when none of the text's references leads into variables that refer back to themselves. |
| ConfigVars.GreatestTrap | library/config.cpp:191-200 | Those variables form one greatest set. |
| ConfigVars.StepShrinks | library/config.cpp:194-198 | Each replacement takes a stray '$' away, or makes the references weigh less. |
| ConfigVars.FirstRefToken | library/config.cpp:194-197 | The leftmost match is a reference that came from a value, or begins at a stray '$'; it never cuts one in two. |
| ConfigVars.Weigh | library/config.cpp:191-200 | Acyclic variables can be weighed, each above all it refers to. |
| ConfigVars.WeightedIsAcyclic | library/config.cpp:191-200 | And only they can. |
| ConfigVars.NeverEnds | library/config.cpp:194-199 | A reference into a cycle stays in the text for any number of turns. |
| ConfigVars.StrayDollarLoops | library/config.cpp:194-199 | Two values that complete a reference between them loop for ever. |
| ConfigVars.StrayDollarAcyclic | library/config.cpp:194-199 | Though neither variable refers back to itself. |
| ConfigVars.ResolvesToMeaning | library/config.cpp:191-211 | A text with complete references only resolves to its recursive expansion, or to its first unknown name. |
| ConfigVars.MatchesIff | library/config.cpp:60-60 | What the pattern matches and captures, by tables of letters and digits: "${", a letter, letters, digits and dashes, "}". |
| ConfigVars.StepReplaces | library/config.cpp:194-199 | One turn replaces the leftmost match by the value of its name, or ends at a name that has none. |
| ConfigVars.StepResolves | library/config.cpp:194-200 | Without a match the text is the result. |

## Left out

- Sockets, FCGX, the monitor port, pid files, signals and `main/`: foreign I/O.
- libxml2 and XPath, dlopen loading, regex request filters and handler selection: library wrappers. Of the configuration only the fixed variable pattern is modelled.
- Loggers, cookie accessors and formatting, dates, MD5, response-time statistics: a cookie is its name and its printed text, and key hashing is taken to be injective.
- Failing mmap, ftruncate and open calls, memory exhaustion, and what an object is worth after MAP_FAILED; a failed link and a mapping of no bytes are outcomes of the model.
- 64-bit wrap-around outside image parsing: `FileBuffer::read`, `write` and the window arithmetic compute in unbounded integers. `DataBuffer` clips positions before it calls them.
- `int` overflow of `KeyId::id`, reuse of a thread's identity, and a restart of the daemon, which forgets `waiting_` and leaves its files in the cache directory.
- A clock that goes back: keys are proved distinct for a monotone one.
- Iteration order of maps: stored tables are sequences in the order in which the map would be walked. Response headers go out in an arbitrary order that depends on the entries, since the hash table chooses it.
- The locale and the platform: bytes are classified as in the C locale, `char` is signed, integers lie in memory least significant byte first.
- Uploads.Attach: is about bodies with which the parser comes to an end; on the others, which EndsUnlessClosedEarly describes, `attach` does not return. The conversions of `stream_->read`'s count to `int` are not modelled.
- CacheProtocol.RetrySafety: exact equality of `active_` with live requests is not claimed, only that every key in it has a request, or the handler, to answer for it.
- Interleaving inside a lock region or a single file-system call; handlers that write into the body's buffer while the request is saved.
- UrlCodec.RenderedFormIff: is about pairs with names; the value of a pair without one is not looked at.
- MultipartRoundTrip.MultipartRoundTrip: is not about a first header line that is a continuation, nor about a part with an item whose key is CONTENT_TYPE, the name that the code compares with where a client sends the header Content-Type; Line and LineShows cover both.
- Restarting a stopped pool, which would add a second set of threads.
- Postfix `++` of the segment iterator, which nothing uses.
- Responses.Request.SetHeader: takes names as `normalizeOutputHeaderName` leaves them, and exceptions without their full texts. Stream writes do not fail.
- Responses.TaskAnswers: a handler is the list of calls it makes, so one that blocks for ever is not covered.
- Components: `onLoad` is a fixed list of look-ups and throws. Exceptions from `onUnload` are swallowed by the code and not shown.
- ConfigVars.TextEndsIff: is, like EndsIffAcyclic, about variables whose values hold '$' in complete references only, all of them to variables that exist; without the first, StrayDollarLoops. An unknown name met first ends the loop even when a later reference is cyclic.
