# bim-core request workers in Dafny

This project models the measurement core of bim-core, `src/requests.rs`. It has four parts.

- **`make_connection`** connects to the server with up to three timed TCP attempts. It wraps the stream in TLS when asked. After three failures it gives up with the message `连接失败`.
- **`request_tcp_ping`** times one connect. A failed connect reports the sentinel 1 000 000 µs instead of an error.
- **`request_http_download`** is a throughput worker. It connects, waits on the start barrier, then loops until the shared stop flag is set. Each pass either writes a GET request head or reads one 64 KiB block. A head is written when the local `data_counter` has reached the request's `data_size`. A block read credits 65536 bytes to the shared counter. Any I/O error ends the loop. The worker then waits on the end barrier.
- **`request_http_upload`** has the same shape. It writes POST heads whose `Content-Length` is `data_size` and credits each head's length. It then writes 65536-byte chunks of a repeated 64-character pattern and credits 65536 per chunk.

Sockets, TLS, clocks and the stop flag are an `Oracle` value:
- `connects[k]` is the outcome of connect attempt k.
- `tlsOk` says whether the TLS client could be built.
- `stopFlag[i]`, `io[i]` and `clockMs[i]` are the flag reading, the outcome of the single read or write, and the millisecond time stamp of loop iteration i.
- The last flag reading is true, so every modelled run ends.

Each worker method does two things:
- It returns its trace: the barrier waits, the heads written, the blocks moved and the counter credits, in order.
- It adds to a `SharedCounter` object, as the original adds to its `RwLock<u128>`.

Each method is proved equal to the specification function `WorkerTrace`. The counter's growth is proved equal to the credits in that trace. The properties are proved about `WorkerTrace`.

Modules:
- `Wrappers`: Option and Result.
- `Decimal`: how Rust's `{}` writes an unsigned integer, and reading it back.
- `Connection`: the retry loop and the latency probe.
- `RequestHead`: the GET and POST heads, the upload chunk, and the UTF-8 byte length of a head.
- `Worker`: settings, oracle, events, the loop specification and the two worker methods.
- `WorkerProperties`: lemmas on worker traces.

## Model

| member | source | states |
|---|---|---|
| Connection.Establish | src/requests.rs:16-61 | at most 3 attempts; success on the first successful connect, with all earlier ones failed; `Err("连接失败")` after exactly 3 failures, and only then; TLS is used exactly when `ssl`; a failing TLS setup after a successful connect is a panic |
| Connection.MakeConnection | src/requests.rs:21-60 | the `retry` loop counting down from 3 returns exactly what `Establish` describes |
| Connection.FirstSuccess | src/requests.rs:22-23 | the attempt that ends the loop is the first successful one, and none before it succeeded |
| Connection.TcpPing | src/requests.rs:63-77 | always `Ok`; the measured microseconds on success, exactly 1 000 000 on failure |
| Connection.PingSentinelMeansFailure | src/requests.rs:67-74 | when the connect answered within its 1 s timeout, the value is the sentinel if and only if the connect failed |
| Decimal.Show | src/requests.rs:124-127 | the text Rust's `{}` writes for an unsigned integer: a non-empty run of digits, a single digit exactly for numbers below 10 |
| Decimal.ShowDigits | src/requests.rs:124-127 | a number is written as a non-empty run of digits with no leading zero |
| Decimal.ParseShow | src/requests.rs:124-127 | reading back the decimal text of a number gives the number |
| Decimal.ShowInjective | src/requests.rs:225-226 | two numbers with the same text are equal, so a header field names one size only |
| RequestHead.HostPort | src/requests.rs:101-105 | the `Host` value is the host, a colon, and digits that read back as the port |
| RequestHead.DownloadHead | src/requests.rs:124-136 | the GET head built from path, time stamp, `Host` value, chunk count and size ends with `&ckSize=<chunk_count>&size=<data_size>`, the protocol, the `Host` and `User-Agent: bim/1.0` lines and the blank line |
| RequestHead.DownloadHeadShape | src/requests.rs:124-136 | a download head starts with `GET <path>?cors=true&r=<now>&ckSize=`: the request line carries the iteration's millisecond time stamp as the cache-busting `r` field |
| RequestHead.DownloadHeadRequestLine | src/requests.rs:124-136 | helper: a download head starts with `GET <path>?cors=true&r=` |
| RequestHead.DownloadHeadDeclaresSize | src/requests.rs:124-136 | the GET query asks for size n if and only if n is the `data_size` it was built with |
| RequestHead.UploadHead | src/requests.rs:219-228 | the POST head built from path, time stamp, `Host` value and size ends with the `Content-Length: <data_size>` line and the blank line |
| RequestHead.UploadHeadShape | src/requests.rs:219-228 | an upload head starts with `POST <path>?r=<now> HTTP/1.1`, then the `Host: <host_port>` line and the `User-Agent: bim/1.0` line |
| RequestHead.UploadHeadRequestLine | src/requests.rs:219-228 | helper: an upload head starts with `POST <path>?r=` |
| RequestHead.LeadingFieldUnique | src/requests.rs:124-127 | a decimal field closed on the right by a non-digit has only one reading |
| RequestHead.UploadHeadDeclaresLength | src/requests.rs:224-228 | the POST head declares `Content-Length` n if and only if n is `data_size` |
| RequestHead.Repeat | src/requests.rs:199-200 | repeating a pattern n times gives n times its length |
| RequestHead.RepeatAt | src/requests.rs:199-200 | position `|s|*q + k` of a repetition holds the pattern's character k |
| RequestHead.RequestChunk | src/requests.rs:199-201 | the upload payload, the pattern repeated 1024 times, is 65536 characters long |
| RequestHead.RequestChunkShape | src/requests.rs:199-201 | the upload chunk is exactly 65536 characters, and character i is pattern character i mod 64 |
| RequestHead.PatternAscii | src/requests.rs:199 | the 64-character pattern is ASCII |
| RequestHead.RepeatAscii | src/requests.rs:199-200 | repeating ASCII text gives ASCII text |
| RequestHead.RequestChunkBytes | src/requests.rs:199-201 | the upload chunk is ASCII, so its UTF-8 encoding from `into_bytes()` is exactly 65536 bytes |
| RequestHead.NumberFieldUnique | src/requests.rs:225-226 | a decimal field after a non-digit delimiter has only one reading |
| RequestHead.Utf8Length | src/requests.rs:228-234 | the byte length `into_bytes().len()` gives for a string is at least its character count |
| RequestHead.AsciiUtf8Length | src/requests.rs:228-234 | a string's UTF-8 byte length equals its character count if and only if every character is ASCII |
| RequestHead.HostPortAscii | src/requests.rs:101-105 | the `Host` value is ASCII if and only if the host is |
| RequestHead.DownloadHeadAscii | src/requests.rs:124-136 | a GET head is ASCII if and only if its path and `Host` value are |
| RequestHead.UploadHeadAscii | src/requests.rs:219-228 | a POST head is ASCII if and only if its path and `Host` value are |
| Worker.DataSize | src/requests.rs:89-97 | `data_size = chunk_count * 1024 * 1024` with `chunk_count` 15000 or 50; it is a multiple of 65536 and holds 240000 or 800 blocks |
| Worker.RequestHeadBytes | src/requests.rs:228-234 | the character count credited for a head equals the byte count the original credits if and only if the target's host and path are ASCII |
| Worker.RunLoop | src/requests.rs:118-169 | the `while !flag` loop from iteration i (the download loop cited here; the upload loop at lines 213-266 is the same loop, told apart by the direction): each pass writes a head when `data_counter` has reached `data_size` and otherwise moves one block, any I/O failure or a set flag leaves it; the run is longer than the events before it, keeps their first event and ends with the end-barrier wait |
| Worker.WorkerTrace | src/requests.rs:108-169 | a worker's whole run: connect, then the `RunLoop` between the barrier waits; its first event is the start-barrier wait and its last the end-barrier wait, or it is only `Abort` when TLS setup panics |
| Worker.NextBlockFits | src/requests.rs:150-157 | helper for the loop invariant: a block-aligned counter below `data_size` stays within `data_size` and aligned after adding 65536 |
| Worker.RunLoopExit | src/requests.rs:142-147 | helper: unfolds one `RunLoop` step, in which a set flag or a failed read or write ends the run with the end-barrier wait |
| Worker.RunLoopHead | src/requests.rs:138-141 | helper: unfolds one `RunLoop` step, in which a successful head write is recorded and `data_counter` restarts at 0 |
| Worker.RunLoopPayload | src/requests.rs:151-157 | helper: unfolds one `RunLoop` step, in which a successful block read or write is credited 65536 and `data_counter` grows by 65536 |
| Worker.RequestHeadsAt | src/requests.rs:120-136 | the head of iteration i is formatted from that iteration's clock reading |
| Worker.BuildHead | src/requests.rs:119-136 | the head written in iteration i is the request head for that iteration's clock reading |
| Worker.SharedCounter.Add | src/requests.rs:153-156 | the shared counter grows by exactly the credited amount |
| Worker.RequestHttpDownload | src/requests.rs:79-170 | the download worker's trace is `WorkerTrace` for its settings and oracle, and the shared counter grows by exactly the sum of the credits in that trace |
| Worker.DownloadLoop | src/requests.rs:117-169 | the download loop, with `data_counter` kept block-aligned within [0, `data_size`], produces the `RunLoop` trace and credits its sum |
| Worker.RequestHttpUpload | src/requests.rs:172-267 | the upload worker's trace is `WorkerTrace` for its settings and oracle, and the shared counter grows by exactly the sum of the credits in that trace |
| Worker.UploadLoop | src/requests.rs:212-266 | the upload loop, with `data_counter` kept block-aligned within [0, `data_size`], produces the `RunLoop` trace and credits its sum |
| Worker.CreditSumConcat | src/requests.rs:153-156 | credits add up across consecutive parts of a trace |
| WorkerProperties.WorkerBarriers | src/requests.rs:108-169 | a worker that panics in TLS setup waits on no barrier; any other worker waits on the start barrier once, first, and on the end barrier once, last, on every modelled path (the clock panic is not modelled, see "Left out"); a worker that cannot connect does nothing in between |
| WorkerProperties.CreditsInsideBarriers | src/requests.rs:117-169 | no credit happens before the start-barrier wait or after the end-barrier wait; a worker that does not connect credits nothing |
| WorkerProperties.WorkerCredits | src/requests.rs:230-254 | (the upload credits cited here; the download block credit is at lines 151-157) the total credited is 65536 per block moved plus, for upload only, the length of every head written |
| WorkerProperties.WorkerAccounting | src/requests.rs:138-157 | every block is 65536 bytes and is credited 65536 at once; an upload head is credited its length at once; a download head is never credited; no credit stands without the transfer it counts |
| WorkerProperties.WorkerFollowsCounter | src/requests.rs:119-157 | a transfer is a head exactly when `data_counter`, rebuilt from the earlier transfers, has reached `data_size` |
| WorkerProperties.WorkerCycles | src/requests.rs:214-254 | the first transfer is a head; `data_counter` stays a multiple of 65536 in [0, `data_size`]; consecutive heads are exactly 800 blocks apart (240000 in connection-close mode), and no run of blocks is longer |
| WorkerProperties.CounterInRange | src/requests.rs:119-157 | under the head rule, the counter is block-aligned and within [0, size] after every transfer |
| WorkerProperties.HeadsEveryCycle | src/requests.rs:119-157 | under the head rule, consecutive heads are `size / 65536` blocks apart |
| WorkerProperties.RunsWithinCycle | src/requests.rs:119-157 | under the head rule, no run of blocks after a head is longer than `size / 65536` |
| WorkerProperties.ChunksBetweenHeads | src/requests.rs:140-157 | between two consecutive heads lie exactly `size / 65536` blocks |
| WorkerProperties.ChunksAfterHead | src/requests.rs:140-157 | after a head, at most `size / 65536` blocks follow before the next head |
| WorkerProperties.CounterAligned | src/requests.rs:140-157 | the counter after any prefix of transfers is block-aligned and at most the size |
| WorkerProperties.CounterAfterHead | src/requests.rs:140-157 | after a head followed by m blocks, `data_counter` is m * 65536 |
| WorkerProperties.HeadForInjective | src/requests.rs:120-127 | two heads of a worker are equal if and only if they were built from the same clock reading: the time stamp makes every request URL fresh |
| WorkerProperties.WorkerHeads | src/requests.rs:119-136 | every head a worker writes is its request head for one of its clock readings |
| WorkerProperties.HeadForDeclaresCycle | src/requests.rs:219-228 | the head for any clock reading starts with the method and path, and declares the cycle's `data_size` and no other size (POST `Content-Length`, GET `size=` query) |
| WorkerProperties.WorkerHeadsDeclareSize | src/requests.rs:219-228 | every upload head is a POST for the target path declaring exactly `data_size` as `Content-Length`; every download head is a GET for the target path asking for exactly `data_size` |
| WorkerProperties.UploadBodiesMatchLength | src/requests.rs:224-254 | the chunks an upload writes between two consecutive POST heads total exactly `data_size` bytes, which is the declared `Content-Length` |

## Left out

- Sockets, the 3 s connect, read and write timeouts, and the rustls and webpki trust-anchor setup are left out. They are network I/O and foreign library code. Each connect attempt is a boolean of the oracle. Building the TLS client (lines 33-49) is one boolean, `tlsOk`.
- TLS handshake failures are not modelled separately. rustls negotiates lazily, on the first read or write, so a failed handshake shows up as a failed `io[i]` reading.
- The panics of the two `unwrap` calls at line 48 and line 49 are modelled as `Establishment.Panicked`. That worker's trace is `[Abort]`: the thread dies before either barrier wait (`WorkerBarriers`). In the original the other workers then wait on the start barrier for a thread that never arrives; that consequence lies in the barrier semantics, which are not modelled (see the concurrency line below). The model follows the code here. Treating such a failure as one more failed, retried attempt would be a different policy, which is not modelled.
- The `unwrap` calls on `host_str()` and `port_or_known_default()` (lines 103-104, 195-196) are not modelled as panics. `Target` always holds a host and a port.
- The `unwrap` calls on the lock results (flag and counter) are not modelled: lock poisoning is not part of the model.
- WorkerProperties.WorkerBarriers: the `unwrap` on `duration_since(UNIX_EPOCH)` (lines 120-122 and 215-217) panics when the wall clock reads before 1970. That panic comes after the start-barrier wait, so such a worker never waits on the end barrier. Clock readings are `nat` milliseconds, so the model cannot express this case, and the barrier promise holds only for runs whose clock is past the epoch.
- The clock reads (`Instant` at lines 64-66, `SystemTime` at lines 120-123 and 215-218) are inputs. The ping's elapsed time is a parameter, and the head time stamps are `clockMs`.
- Concurrency is left out. The `Arc<RwLock<..>>` counter and flag, the barriers' release semantics and the interleaving of several workers are not modelled. A single worker is modelled sequentially. The stop flag is the sequence of values it observes, and barrier waits are trace events.
- Oracle.Valid: requires the stop flag to read true eventually. A run that never sees the flag is not modelled; the original then loops until an I/O error.
- The bytes read into the download buffer are not kept. The trace records how many bytes each block moved, which is the buffer length.
- Worker.HeadEvents: an upload head is credited its character count `|head|`, while the original credits `request_head.len()` of its UTF-8 bytes (lines 228 and 234). `Worker.RequestHeadBytes` proves the two equal exactly when the target's host and path are ASCII. The url crate hands out an ASCII host (IDNA) and a percent-encoded path, but `Target` does not require this, so for a non-ASCII target the model credits fewer bytes than the original.
- The shared counter is an unbounded `nat`. The original's `u128` cannot overflow at realistic byte counts, so its wrap-around is not modelled.
- `Decimal.Show` covers the unsigned integers the heads print (`u128` time stamp, chunk count, size) and the `u16` port.
- Debug logging under `cfg(debug_assertions)` is left out; it has no behaviour.
- `run.py` is not part of this model. It is the polling client that launches the binary.
