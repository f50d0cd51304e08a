# Doom data source: screen transcoder, metrics fan-out and server-query table

This project is a Dafny model of the core of a Grafana data source that runs
Doom in the browser. It has three parts.

- **Screen transcoder.** It models `renderImgData` in `src/datasource.ts`. A
  rendered frame (an RGBA byte buffer) becomes a Grafana data frame:
  - every effective pixel is quantized to a palette index by `getColorIndex`,
    which keeps a memo cache keyed by `rgbaKey`;
  - each pixel column is filed into lists of rows per palette index
    (`color2H`), with the longest list length `tLen`;
  - the columns are flattened into one `Time` field and 256 value fields of
    equal length.
- **Metrics fan-out.** It models `subscribeToMetrics`, `unsubscribeToMetrics`
  and the publish step of `window.doStuff`.
- **Server-query target table.** It models the target table of
  `doom-wasm/src/net_query.c`: address lookup and creation, rate-limited query
  dispatch, the timeout sweep, response handling, the completion test, the poll
  step, and the responder count and search.

Modules:

| module | file | concept |
|---|---|---|
| `Wrappers` | wrappers.dfy | `Option` |
| `Quantizer` | quantizer.dfy | `rgbaKey`, `getColorIndex` and its cache |
| `Raster` | raster.dfy | effective geometry, read offsets, pixel reads |
| `Columns` | columns.dfy | one column: `color2H` and `tLen` |
| `Decimal` | decimal.dfy | the `String(colorIndex)` labels |
| `Transcoder` | transcoder.dfy | the whole `renderImgData`, subscription start and teardown |
| `MetricsHub` | metrics_hub.dfy | metric subscribers and publish |
| `NetQuery` | net_query.dfy | the query target table |

How the code is modelled:

- **Quantizer.** The quantizer returns the *first* palette entry whose three
  channels each lie within 3 of the input, and 0 when no entry does. It does
  not search for a nearest colour.
- **Cache key.** The key `r*2000 + g*1000 + b` is not injective.
  `Quantizer.RgbaKeyCollision` characterises the collisions, and
  `Quantizer.StaleCacheHit` shows a lookup served an index computed for a
  different colour.
- **Out-of-buffer reads.** JavaScript yields `undefined` for a read outside the
  buffer. Here such a read is `None` and its key is NaN. It quantizes to 0
  in every cache built from the empty one (`Transcoder.UndefinedPixelIsZero`);
  a cache seeded with another index under the NaN key would give that index.
- **The canvas path.** Without flip at full resolution, the last effective row
  is read from buffer row -1 (`Transcoder.CanvasBottomRowIsUndefined`). The
  WebGL path flips, and all its reads are defined
  (`Transcoder.WebGLReadsAreDefined`).
- **Times.** Times are `real`.
- **Net-query time.** In the net-query model every clock reading is an
  unsigned 32-bit number. Elapsed times wrap as the C unsigned subtraction
  does. `last_query_time` is a C `int` but is only compared through that
  unsigned subtraction, so it is kept as an unsigned value too.

## Model

| member | source | states |
|---|---|---|
| `Quantizer.GetColorIndex` | src/datasource.ts:80-97 | A cached key returns the cached index without a scan. Otherwise the result is the first palette entry within the margin on all three channels (0 if none) and is memoised under the key. Old entries are kept, and a bounded cache stays bounded. |
| `Quantizer.MatchIndex` | src/datasource.ts:86-96 | The uncached answer is the lowest index of an accepting entry, or 0 when no entry accepts or the pixel is undefined. |
| `Quantizer.ScanFrom` | src/datasource.ts:86-94 | The palette scan from index i finds the first accepting entry at or after i, or reports that none exists. |
| `Quantizer.RepeatedLookupIsStable` | src/datasource.ts:81-84 | A second lookup of the same pixel returns the same index and leaves the cache unchanged. |
| `Quantizer.RgbaKey` | src/datasource.ts:28-30 | For blue in 0..999 the key splits back into blue (its last three digits) and `2r + g` (the rest); red and green are not recoverable separately. |
| `Quantizer.RgbaKeyCollision` | src/datasource.ts:28-30 | For blue below 1000, two colours share a cache key iff their blue channels are equal and 2r+g agrees. |
| `Quantizer.StaleCacheHit` | src/datasource.ts:81-83 | Counterexample: a key collision makes the cache return an index whose palette entry does not accept the colour, where the scan would give 0. |
| `Raster.GeometryOf` | src/datasource.ts:109-111 | Half resolution gives 160x100 with stride 2*scale. Full resolution gives 320x200 with stride scale. |
| `Raster.RowIndexMirror` | src/datasource.ts:121 | The unflipped and flipped buffer rows of y add up to `199*scale - 1`. With a positive stride, flipped rows go down the buffer as y grows and unflipped rows go up. |
| `Raster.Offset` | src/datasource.ts:121 | Every read offset is a multiple of 4: it starts at the red channel of some buffer pixel. |
| `Raster.BufferSize` | src/datasource.ts:171 | The WebGL buffer is `scale * scale` copies of the 256000-byte 320x200 RGBA frame. |
| `Raster.CellInBuffer` | src/datasource.ts:171 | Every channel of every buffer pixel in rows 0..199*s and columns 0..319*s lies inside `BufferSize(s)`. |
| `Raster.SolidImageReads` | src/datasource.ts:121-122 | Every defined read of a one-colour buffer gives that colour. |
| `Raster.ReadPixel` | src/datasource.ts:122 | A read is defined iff the offset and the two following bytes lie in the buffer. It then gives those three bytes as R, G, B. |
| `Raster.ReadInBufferIff` | src/datasource.ts:121 | In a `320*s x 200*s x 4` buffer, the offset of (x, y) is inside iff the frame is flipped, or half resolution, or y is not the last row. |
| `Raster.BottomRowReadsBeforeBuffer` | src/datasource.ts:121 | Unflipped at full resolution, row 199 is read from buffer row -1, so its offset is negative. |
| `Decimal.DecimalString` | src/datasource.ts:152 | The label of a palette index is a non-empty digit string with no leading zero. |
| `Decimal.ParseDecimalString` | src/datasource.ts:152 | Reading the label back gives the index (round trip). |
| `Decimal.LabelsAreDistinct` | src/datasource.ts:152 | Distinct palette indices get distinct `color` labels. |
| `Columns.BuildColumn` | src/datasource.ts:118-131 | After the row loop, index k has a list iff some row quantized to k. That list is exactly the rows that quantized to k, in ascending order, and `tLen` is at least 1. |
| `Columns.AddRowFiles` | src/datasource.ts:124-129 | Filing row y under idx appends y to idx's list, creating it if absent, and leaves every other list as it was. `tLen` never shrinks; once it is at least 1 it becomes the larger of itself and the new list's length. |
| `Columns.RowsOfMembership` | src/datasource.ts:120-129 | Row y is in the list of k iff y is a row of the column and it quantized to k. |
| `Columns.RowsOfAscending` | src/datasource.ts:120-127 | Every list is strictly ascending and holds only rows of the column. |
| `Columns.ColumnPartitionsRows` | src/datasource.ts:120-129 | The lists of a built column partition its rows by palette index. |
| `Columns.ColumnRunLength` | src/datasource.ts:118-128 | `tLen` is the length of the longest list: no list is longer, some list reaches it, and an empty column has 1. |
| `Columns.ColumnRunsCoverHeight` | src/datasource.ts:117-131 | When every index is below the bound, the list lengths over the indices add up to the column height. |
| `Columns.UniformColumn` | src/datasource.ts:118-131 | A column whose rows all quantize to k has the single list 0..h-1 under k, and `tLen` h. |
| `Columns.AlternatingColumn` | src/datasource.ts:118-131 | A column alternating between a and b gives a the ceiling and b the floor of half the rows. |
| `Transcoder.StartScreenQuery` | src/datasource.ts:245-260 | The render context keeps the refId and defaults `halfResolution` to false. Its window is `to - from` and its step is `(to - from) / 320`. |
| `Transcoder.EndScreenQuery` | src/datasource.ts:271-272 | Teardown drops the render context. |
| `Transcoder.RenderAfterTeardown` | src/datasource.ts:271-272 | After teardown, rendering a frame pushes nothing and leaves the cache unchanged, whatever the context was. |
| `Transcoder.QuantizeAll` | src/datasource.ts:120-122 | Quantizing a run gives one index per pixel and keeps every earlier cache entry. A bounded cache yields palette indices only. Which index each pixel gets is stated by `Transcoder.QuantizedIndex`. |
| `Transcoder.QuantizedCacheKeys` | src/datasource.ts:80-97 | After a run, a key is cached iff it was cached before or some pixel of the run has it. |
| `Transcoder.QuantizedIndex` | src/datasource.ts:80-97 | Pixel i of a run gets the entry cached before the run under its key, if there was one. If no earlier pixel of the run had its key either, it gets the first-match scan of its own colour (0 when nothing matches or the pixel is undefined). A pixel whose key an earlier pixel had gets that pixel's index. |
| `Transcoder.QuantizedKeysAgree` | src/datasource.ts:120-122 | Every pixel's index is what the final cache holds under its key, so a later lookup never changes an earlier answer. |
| `Transcoder.FramePixels` | src/datasource.ts:117-122 | The frame reads one pixel per effective position: width columns of height rows. |
| `Transcoder.FramePixelIsSample` | src/datasource.ts:117-122 | The pixel read for (x, y) is the one at the offset computed for (x, y). |
| `Transcoder.TranscodeColumns` | src/datasource.ts:117-133 | The column loop gives one index per pixel and one column per pixel column. Each column is the one built from its indices, and the cache keeps its old entries and stays bounded. Which index each pixel gets is stated by `Transcoder.FramePixelIndex`. |
| `Transcoder.FrameCacheKeys` | src/datasource.ts:117-122 | After a frame, a key is cached iff it was cached before or some pixel of the frame has it. |
| `Transcoder.FramePixelIndex` | src/datasource.ts:117-122 | Pixel (x, y) gets the entry cached before the frame under its key, if there was one. If no pixel before it in column-by-column, top-to-bottom order had its key either, it gets the first-match scan of its own colour. |
| `Transcoder.FrameMatchesFinalCache` | src/datasource.ts:117-133 | The index of every pixel of the frame is what the cache left by the frame holds under the pixel's key. |
| `Transcoder.FrameIndicesInPalette` | src/datasource.ts:117-122 | With a bounded cache and a non-empty palette, every pixel's index is a palette index. |
| `Transcoder.SameKeySameIndex` | src/datasource.ts:122 | Two pixels of one frame with the same cache key get the same index. |
| `Transcoder.FrameColumnsPartitionRows` | src/datasource.ts:117-131 | In every column, row y is listed under k iff pixel (x, y) quantized to k. |
| `Transcoder.SumTLenAppend` | src/datasource.ts:130-132 | `valuesLen` adds up over consecutive runs of columns: their blocks lie end to end. |
| `Transcoder.TimeValues` | src/datasource.ts:132-135 | The Time field has one entry per slot: its length is `valuesLen`, the sum of the columns' `tLen`. |
| `Transcoder.Locate` | src/datasource.ts:132-149 | A flattened position falls in exactly one column's block, at a slot below that column's `tLen`. |
| `Transcoder.TimeValuesAt` | src/datasource.ts:135 | Every position of the Time field carries the time of the column whose block it falls in. |
| `Transcoder.ValueColumnAt` | src/datasource.ts:140-152 | At every position, the value field of index k holds the slot-th row of k in that position's column, or nothing past the end of the list. |
| `Transcoder.WriteRows` | src/datasource.ts:145-147 | Writing a list from offset i puts row q at i+q and leaves every other position unchanged. |
| `Transcoder.BuildValueField` | src/datasource.ts:140-150 | The value loop for one palette index produces exactly the reference layout: the columns' blocks, in order. |
| `Transcoder.BuildFields` | src/datasource.ts:135-153 | There are 257 fields: the Time field, then one value field per index 0..255 labelled with its decimal string. All of them have length `valuesLen`. |
| `Transcoder.TranscodedColumnsFit` | src/datasource.ts:124-132 | No list of a built column is longer than its `tLen`, so every block holds its rows. |
| `Transcoder.WindowStart` | src/datasource.ts:102-103 | The window starts `twindow` before the clock reading. |
| `Transcoder.TranscodeFrame` | src/datasource.ts:117-133 | The transcoded columns fit all 256 value fields. |
| `Transcoder.PushFrame` | src/datasource.ts:155-165 | The pushed frame is named `screen`, tagged and keyed with the refId, and carries the 257 fields. |
| `Transcoder.RenderImgData` | src/datasource.ts:99-167 | With no render context nothing is pushed and the cache is unchanged. Otherwise exactly one screen frame is pushed for the transcoded columns, starting one window before now, and the cache is the one the frame leaves. |
| `Transcoder.WebGLReadsAreDefined` | src/datasource.ts:169-174 | On the WebGL path (flipped, buffer of `320*s x 200*s` pixels), every read of the frame is defined. |
| `Transcoder.CanvasBottomRowIsUndefined` | src/datasource.ts:177-179 | On the canvas path (unflipped, 320x200), the last full-resolution row is never defined. |
| `Transcoder.CanvasBottomRowIndex` | src/datasource.ts:117-122 | On the canvas path (unflipped, full resolution, scale 1), every pixel of the last row gets index 0 whenever the NaN key is absent from the cache or maps to 0, as in every cache built from the empty one. |
| `Transcoder.UndefinedPixelIsZero` | src/datasource.ts:80-97 | Under the same cache condition, every undefined pixel of a frame gets index 0. |
| `Quantizer.NaNStaysZero` | src/datasource.ts:80-97 | A lookup keeps the NaN key absent or mapped to 0, and an undefined pixel gets 0. |
| `Transcoder.QuantizeAllNaNStaysZero` | src/datasource.ts:120-122 | A run of lookups keeps the NaN key absent or mapped to 0. |
| `Transcoder.FrameNaNStaysZero` | src/datasource.ts:117-133 | A whole frame keeps the NaN key absent or mapped to 0, so this holds across any sequence of frames started from the empty cache. |
| `Transcoder.UniformFrame` | src/datasource.ts:117-133 | A frame whose pixels all quantize to one index k has columns with `tLen` equal to the height, each listing only k. Its fields are width x height long. |
| `Transcoder.SameColourFrame` | src/datasource.ts:117-133 | A frame whose pixels are all one colour: every pixel gets the index cached for that colour's key before the frame, or else the first-match scan of the colour, and the columns are as in `Transcoder.UniformFrame`. |
| `Transcoder.SolidFramePixels` | src/datasource.ts:117-122 | Read flipped or at half resolution, every pixel of a frame from a one-colour `320*s x 200*s` buffer is that colour. |
| `Transcoder.SolidFrame` | src/datasource.ts:99-174 | A one-colour buffer read flipped or at half resolution (the WebGL path flips) transcodes to one index k for every pixel: the cached entry for the colour's key, else its first match. Every column lists only k with `tLen` equal to the height, and the fields are width x height long. On the canvas path at full resolution it need not hold: the last row is undefined and gets the NaN key's index, which is 0 for every cache built from the empty one (`Transcoder.CanvasBottomRowIndex`), so it differs from k unless k is 0. |
| `MetricsHub.DoStuffMetrics` | src/datasource.ts:59-67 | The metrics record has exactly the six metric names, each bound to its engine argument. |
| `MetricsHub.Subscribe` | src/datasource.ts:72-74 | The listener is appended at the end. The others keep their places, and the multiset gains one `fn`. |
| `MetricsHub.Unsubscribe` | src/datasource.ts:76-78 | The listener is gone afterwards, and nothing new appears. |
| `MetricsHub.UnsubscribeCounts` | src/datasource.ts:76-78 | Every occurrence of `fn` is removed and every occurrence of the others is kept. |
| `MetricsHub.UnsubscribeAppend` | src/datasource.ts:77 | The filter keeps order: filtering a concatenation is concatenating the filtered parts. |
| `MetricsHub.UnsubscribeAbsent` | src/datasource.ts:77 | Removing a listener that is not subscribed changes nothing. |
| `MetricsHub.UnsubscribeIdempotent` | src/datasource.ts:77 | Unsubscribing twice is unsubscribing once. |
| `MetricsHub.UnsubscribeCommutes` | src/datasource.ts:77 | Unsubscribing two listeners gives the same list in either order. |
| `MetricsHub.Publish` | src/datasource.ts:68 | The publish loop calls every subscriber in list order with the same metrics. |
| `MetricsHub.DoStuff` | src/datasource.ts:59-69 | `doStuff` publishes the record built from its arguments to every subscriber. |
| `MetricsHub.FanoutCallsEachOnce` | src/datasource.ts:68 | A publish calls each listener once per occurrence in the list. |
| `MetricsHub.NoCallsAfterUnsubscribe` | src/datasource.ts:76-78 | After unsubscribing, a publish never calls the listener. |
| `MetricsHub.SubscribedIsCalledLast` | src/datasource.ts:72-74 | A newly subscribed listener is called once more, and last. |
| `MetricsHub.MetricQueryLeavesNoTrace` | src/datasource.ts:238-241 | A metric query's subscribe-then-teardown leaves the subscriber list as it found it. |
| `NetQuery.Elapsed` | doom-wasm/src/net_query.c:240 | The unsigned difference of two clock readings, wrapped modulo 2^32. |
| `NetQuery.Inc` | doom-wasm/src/net_query.c:274 | Incrementing the attempt counter wraps to 0 past 2^32-1. |
| `NetQuery.FindTarget` | doom-wasm/src/net_query.c:90-94 | The lookup finds the first target with the address, or reports that none has it. |
| `NetQuery.GetTargetForAddr` | doom-wasm/src/net_query.c:85-112 | A known address returns its first target and leaves the table unchanged. An unknown address returns nothing, or with `create` appends a queued server target with 0 attempts and returns it. |
| `NetQuery.GetTargetKeepsAddrsDistinct` | doom-wasm/src/net_query.c:85-112 | Lookups and creation keep the addresses in the table distinct. |
| `NetQuery.GetTargetIsStable` | doom-wasm/src/net_query.c:90-111 | A second lookup of the same address finds the same target and creates nothing. |
| `NetQuery.FirstDue` | doom-wasm/src/net_query.c:244-252 | The dispatch loop stops at the first target that is queued, or queried more than 2000 ms ago. |
| `NetQuery.QueryDestination` | doom-wasm/src/net_query.c:261-269 | A server target is queried at its address, and the broadcast target by broadcast. |
| `NetQuery.SendOneQuery` | doom-wasm/src/net_query.c:231-277 | Within 50 ms of the last query, or with no target due, nothing changes and nothing is sent. Otherwise only the first due target changes: it becomes queried at `now` with one more attempt. The last query time becomes `now`, and the query goes to that target's destination. |
| `NetQuery.SendOneQueryProgress` | doom-wasm/src/net_query.c:248-249 | Sending a query never removes or re-addresses a target and never touches a responded one. |
| `NetQuery.SendOneQueryRateLimited` | doom-wasm/src/net_query.c:238-242 | After a query is sent, no further query goes out for 50 ms. |
| `NetQuery.Expire` | doom-wasm/src/net_query.c:299-302 | One sweep step changes at most the state, and only of a queried target. The target ends up no-response iff it already was, or it was queried at least 3 times and more than 2000 ms have passed since the last query. |
| `NetQuery.CheckTargetTimeouts` | doom-wasm/src/net_query.c:281-304 | Exactly the queried targets with at least 3 attempts and more than 2000 ms elapsed become no-response, with nothing else about them changed. Every other target is untouched. |
| `NetQuery.CheckTargetTimeoutsProgress` | doom-wasm/src/net_query.c:299-301 | The sweep never removes or re-addresses a target and never touches a responded one. |
| `NetQuery.CheckTargetTimeoutsIdempotent` | doom-wasm/src/net_query.c:288-303 | Sweeping twice at the same time is sweeping once. |
| `NetQuery.AllTargetsDone` | doom-wasm/src/net_query.c:308-319 | True iff every target has responded or timed out, which holds vacuously for an empty table. |
| `NetQuery.DoneIsStable` | doom-wasm/src/net_query.c:248-302 | On a finished table the sweep changes nothing and no target is due for a query. |
| `NetQuery.ResponseData` | doom-wasm/src/net_query.c:152-162 | A packet is accepted iff its header reads as a query response and its query data parse. |
| `NetQuery.Respond` | doom-wasm/src/net_query.c:191-202 | A target that has already responded is left alone with no callback. Any other becomes responded with the data and ping `now - query_time`, and the callback reports address, data and ping. |
| `NetQuery.ParseResponse` | doom-wasm/src/net_query.c:145-203 | A malformed packet is ignored. A known sender is handled by the response step. An unknown sender is ignored unless the broadcast target is queried; then a new responded server target is appended, inheriting the broadcast's query time, and the callback fires. |
| `NetQuery.ParseResponseProgress` | doom-wasm/src/net_query.c:191-202 | Handling a response never removes or re-addresses a target and never changes one that has already responded. |
| `NetQuery.ParseResponseKeepsAddrsDistinct` | doom-wasm/src/net_query.c:172-189 | Handling a response never duplicates an address. |
| `NetQuery.CallbackOnlyOnFirstResponse` | doom-wasm/src/net_query.c:191-202 | The callback names the sender, whose target has responded afterwards and had not responded before. |
| `NetQuery.ResponseIsRecordedOnce` | doom-wasm/src/net_query.c:191 | A repeated response changes nothing and fires no callback. |
| `NetQuery.Poll` | doom-wasm/src/net_query.c:326-339 | One poll sweeps, then sends, then handles at most one packet. It returns true iff some target is still pending, never removes or re-addresses a target, never changes a responded one, adds at most one target, and keeps addresses distinct. |
| `NetQuery.Init` | doom-wasm/src/net_query.c:359-372 | The table is emptied; the last query time is not reset. |
| `NetQuery.StartLANQuery` | doom-wasm/src/net_query.c:415-427 | A LAN query starts from a table holding one queued broadcast target with the null address. |
| `NetQuery.GetNumResponses` | doom-wasm/src/net_query.c:399-413 | The loop counts exactly the server targets that have responded. |
| `NetQuery.NoRespondersIff` | doom-wasm/src/net_query.c:384-413 | The responder count is 0 iff no target is a responding server. |
| `NetQuery.FindFirstResponder` | doom-wasm/src/net_query.c:384-395 | Returns the lowest-index responding server. It returns nothing iff the responder count is 0. |
| `NetQuery.RespondersNeverDecrease` | doom-wasm/src/net_query.c:399-413 | Along any progress of the table the responder count never decreases. |
| `NetQuery.LANSearchFindsResponder` | doom-wasm/src/net_query.c:166-201 | In a LAN search, the first send is a broadcast. A server answering it gets its own target with ping measured from the broadcast and is reported, giving one responder. |

## Left out

- Observables, subscribers and data frames: rxjs `Observable`/`merge`, `CircularDataFrame` and `toDataFrame` are library code. A pushed frame is modelled as the record of its name, refId, key and fields; the state is always Streaming and is not kept.
- Rendering: WebGL and canvas reading (`readPixels`, `getImageData`), module start-up, `getImg2DContext` and `testDatasource` are I/O. The buffer is a parameter.
- `metricQuery` appends samples with `Date.now()` to a `CircularDataFrame` of capacity 1000. That storage is library code; only its subscribe/unsubscribe lifetime is modelled (`MetricsHub.MetricQueryLeavesNoTrace`).
- `query` dispatch by query type: the metric enum and `queryTypeToMetric` are defined outside the files modelled. Metric names are a fixed enum of the six names `doStuff` fills.
- Re-entrancy: a subscriber that subscribes or unsubscribes while a publish is running is not modelled.
- Arithmetic: JavaScript numbers are modelled as `int` (channels, offsets) and `real` (times). Floating-point rounding of times is not modelled.
- Palette: the palette is a parameter. The generated 256-entry palette file is not part of this model.
- `renderImgData` builds a `colorsUsed` map that nothing reads, so it is not modelled. All 257 fields are always produced, as the code does.
- Net query: sending and receiving packets, `NET_ReadQueryData`, address reference counting, the master server, the query loop with `I_Sleep`, the `printed` flags and all console output are I/O. An address is an identity, and a received packet is its parsed header and query data.
- Net query `query_time` of a freshly created target: it is uninitialised in C but is never read while the target is queued. The model sets it to 0, and also `ping_time` and `data`.
- `NetQuery.ParseResponse` reads the broadcast target's `query_time` before the new target is appended. The C code reads it through a pointer taken before `I_Realloc` grows the array, which may dangle. The model gives the value the authors evidently meant.
- `NET_Query_ParsePacket` looks up the sender and discards the result before calling `NET_Query_ParseResponse`; the model calls the response step directly.
- `NetQuery.Poll` does not restate the whole new table. It states the outputs and the invariants, and its body composes `CheckTargetTimeouts`, `SendOneQuery` and `ParseResponse`, each of which is specified exactly. Each step reads the clock separately; the three readings are parameters.
- `MetricsHub.Unsubscribe` states only absence and no new members. The exact result (order and multiplicities) is stated by `MetricsHub.UnsubscribeCounts` and `MetricsHub.UnsubscribeAppend`.
- `Transcoder.FramePixels` states only the shape. The read at each position is stated by `Transcoder.FramePixelIsSample`.
- `Transcoder.RenderImgData`: the defaults `vflip = false` and `scale = 1` are not modelled. Both are explicit parameters. The WebGL path passes `true` and its own scale, which its one caller leaves at 1. The canvas path passes its own `vflip` and relies on the default scale 1.
