# A verified model of the NaiveProxy forward proxy

This project models, in Dafny, the parts of the `forwardproxy` Caddy plugin whose
correctness is hardest to see by reading: the padding codec inside the byte pump of a
tunnel, the traffic accounting with its monthly archive and reset, and the admission of
requests (credentials, quota, access rules).

Verify everything with `dafny verify dfyconfig.toml`.

## How the model is built

**Tunnels.** `Streams` gives Go's `io` contracts: a reader is its bytes, an adversarial
schedule for its calls (short and empty reads, an end reported with or after the last
byte), and a sticky end; a writer may accept less than it was given, return an error, or
fail to flush, call by call. `Padding` defines the wire format and a decoder over plain
byte strings that knows nothing of reads or buffers. `Pump` holds `flushingIoCopy` as a
loop over one reused 64 KiB array and proves it equal to a function of the two ends
(`Copied`) in which the buffer does not appear. `Tunnel` holds the buffer pool and
`dualStream`, and `Interleaving` its two loops at the same time. `TunnelProofs` shows what
`Copied` means, and `EightFrames` says it in figures.

**Accounting.** `Calendar` decides which tick resets. `Accounting` is a transition system:
each atomic load, store, add and file operation of `traffic_stats.go` is an event; tunnels
add at any moment, any write may fail, the process may die between any two events and be
started again; the clock never goes back. A ledger that the program does not have records
what was earned, billed and lost. `AccountingProofs` holds the invariants, `AccountingRuns`
the theorems over all runs, `ResetRuns` counts the resets of a run, `Overwriting` says when a
completed archive can change, `Billing` and `ArchiveFiles` tie what was billed to the archive
files, and `Losses` says what a crash or a reset loses. `Process` is the same code in imperative form, a
class with the counters, the guard and the disk, whose every step is recorded as an event of
the machine; its contracts say what each call leaves in counters and files;
between any two steps of the writer the tunnels and the clock may do anything they can. So
every run of the code is a run of the machine, and `Guarantees` carries the invariants over
to its fields and files. `Cells` goes below the machine:
`addTrafficForUser` as separate allocate, `LoadOrStore` and `AddInt64` steps of any number
of racing calls, shown to refine atomic adds; `Metering` joins it to a tunnel's callbacks.

**Admission.** `Base64` and `Credentials` model the configured credentials and
`checkCredentials` over bytes; `Quota` runs the quota gate beside the accounting machine;
`Text`, `Networks`, `Acl` and `Dialling` model the rules, their assembly and the dialling
of a target.

Things of the outside world are parameters or choices: read schedules and faults of
writers, padding sizes, dates, which file operations work, the answers of `net.LookupIP`,
`net.SplitHostPort`, `net.ParseCIDR` and `net.ParseIP`, and the outcome of each dial.

## Where a plain claim is false

The lemma named in each case gives the exact condition or a run that shows the failure.

- The padding round trip holds exactly when eight frames were sent or nothing was left to
  send raw (`TunnelProofs.PaddingRoundTrip`). An empty read uses up a frame
  (`forwardproxy/forwardproxy.go:761`), and eight of them break the stream
  (`TunnelProofs.EmptyReadsBreakRoundTrip`). Sources that bring data on each of the first
  reads are safe.
- A stream cut inside a header or a payload passes for a clean end; only a cut inside the
  padding is reported (`Padding.Truncation`).
- A reset loses the adds between a user's snapshot load and its zeroing store, and a
  rollback those up to the restoring store; exactly those
  (`AccountingRuns.CommittedResetLoses`, `AccountingRuns.RolledBackResetLoses`;
  `Losses.ResetCanLose` is a run). With no add in those windows nothing is lost (`AccountingRuns.QuietRunLosesNothing`).
- A completed archive can be written again, and the exact condition holds for every date,
  any users, any position of the writer and any disk (`Overwriting.ArchiveStaysExactly`). The
  archive of a past date stays in every continuation if and only if no reset begun on that
  date has yet to open it (`Overwriting.PastArchiveStays`). That of today, on a reset day,
  stays if and only if no other date stands in the guard file or in the memory of the running
  process (`Overwriting.ArchiveStaysByGuard`). After a guard save that failed silently, a
  restart on the same day can replace the whole month
  (`Overwriting.UnguardedArchiveCanBeOverwritten`). The first tick after such a restart resets
  again if and only if stats file and guard file could be read and hold another date; else the
  reset of the month is skipped (`AccountingRuns.SameDayRestart`).
- The archive files need not add up to what was billed. Over every run they hold the bills,
  less those whose file was opened again, and more by what resets completed and did not
  persist; so they add up exactly when those two are equal (`ArchiveFiles.FilesAgainstBills`).
  A completed file is a bill exactly when the last reset that completed it also persisted
  (`ArchiveFiles.FileIsBillExactly`). With no persist failing, no crash between archive and
  persist, and no guard lost they do add up (`ArchiveFiles.FilesAreTheBills`). After a reset
  that was rolled back the next archive holds the same bytes once more
  (`Overwriting.ArchivedTwice`, `ArchiveFiles.RollbackBreaksTheBill`), and after a lost guard
  what was billed can be on no file (`ArchiveFiles.LostGuardBreaksTheBill`).
- A crash at any moment loses, for each user, what is live or in flight and not in the stats
  file, and all of it if that file cannot be read (`Losses.CrashLosesWhatIsNotOnFile`). Over
  the run up to the crash that is exactly the adds since the user's load in the last stats
  write (`Losses.CrashLoses`), or since the start if there was none
  (`Losses.CrashAfterBootLoses`).
- The two passes over the access rules are not one first match: they differ exactly when an
  address or `all` rule that allows the address stands before the domain rule that denies
  the host (`Acl.TwoPassesDiffer`).
- The counter `unknown` has no gate: tunnels without a user name add to it whatever quota is
  set (`Quota.AnonymousTunnelsPassNoGate`); for every other user the gate is exact.
- `checkCredentials` panics on a configured credential without a colon, and only then
  (`Credentials.PanicsExactly`, `Credentials.APanickingHeader`). The `basic_auth` directive cannot write one.

## Where the code and its documentation disagree

The model follows the code.

- `README.md:200` calls `AddPadding` the upload direction; `forwardproxy/forwardproxy.go:735-737`
  adds padding towards the client and removes it towards the target.
- `README.md:176` and `README.md:204` say a restart on the reset day may skip the reset; the
  guard file (`forwardproxy/traffic_stats.go:44-57`) now makes the first tick catch up.
- The comment at `forwardproxy/forwardproxy.go:716-718` says `dualStream` returns when the stream
  towards the target is done; the code returns the result of the stream towards the client.
- `forwardproxy/traffic_stats.go:131-135` says a missing guard file can only defer a reset; a guard
  that was not saved can also repeat one, as above.

## Model

| member | source | states |
|---|---|---|
| Streams.Source.ReadFull | forwardproxy/forwardproxy.go:776-783 | The `io.ReadFull` loop over any read schedule: takes as many bytes as wanted or all there are, nothing for an empty buffer, EOF only when nothing came, `ErrUnexpectedEOF` when EOF cut the data short; the rest of the buffer keeps what it held |
| Streams.FullResult | forwardproxy/forwardproxy.go:776-783 | Count and error of a full read depend on the bytes left and the end, not on the schedule; on any error the source is drained for good |
| Streams.CollectStep | forwardproxy/forwardproxy.go:776-783 | One more `Read` of the full-read loop leaves its overall result unchanged |
| Padding.FrameBytes | forwardproxy/forwardproxy.go:760-773 | A frame is header, payload, padding; payload length and padding size can be read back from its three header bytes |
| Padding.FrameLayout | forwardproxy/forwardproxy.go:760-773 | The bytes of a frame in figures: payload length over 256, its remainder, padding size, payload, and zeros only |
| Padding.HeaderIsBigEndian | forwardproxy/forwardproxy.go:774-785 | A header announces 256 times its first byte plus its second as payload and its third as padding; a zero length is a frame of three bytes whatever its padding says |
| Padding.FirstFrameWhole | forwardproxy/forwardproxy.go:774-785 | A whole frame gives up exactly its payload and leaves exactly what follows its padding |
| Padding.FirstFrameCut | forwardproxy/forwardproxy.go:774-785 | A frame cut at any byte yields the payload bytes that came, and an error of its own only for a cut inside the padding |
| Padding.DecodeWire | forwardproxy/forwardproxy.go:774-788 | Decoding frames followed by a tail gives the payloads, then the tail decoded with the frames still due |
| Padding.DecodeLoses | forwardproxy/forwardproxy.go:774-785 | Raw bytes that reach the decoder while frames are due always lose at least one byte |
| Padding.RoundTrip | forwardproxy/forwardproxy.go:756-788 | Decoding returns payload, tail and end exactly, if and only if all eight frames were sent or no tail follows |
| Padding.DecodeMonotone | forwardproxy/forwardproxy.go:774-788 | For any byte stream, well formed or not, seeing more of it only extends the output |
| Padding.Truncation | forwardproxy/forwardproxy.go:774-788 | A framed stream cut anywhere (header, payload, padding, raw tail) decodes to exactly the payload bytes before the cut, with the exact error |
| Padding.WireSize | forwardproxy/forwardproxy.go:709-714 | Framing adds 3 bytes and the padding per frame, between 3 and 258 each, and nothing else |
| Pump.Turn | forwardproxy/forwardproxy.go:757-788 | Every turn that does not end the stream makes the measure of bytes and scheduled reads smaller; a turn that ends it leaves the source drained |
| Pump.FillFrame | forwardproxy/forwardproxy.go:760-773 | One encoder turn leaves in the reused buffer exactly the frame of the bytes read, with zeroed padding, within its 65536 bytes |
| Pump.PutFrame | forwardproxy/forwardproxy.go:766-772 | Header, payload and zeroed padding stand in the buffer as the wire format wants them, whatever it held before |
| Pump.FillUnframed | forwardproxy/forwardproxy.go:774-785 | One decoder turn leaves exactly the payload of the next frame, also when a cut header makes it use stale bytes as a length |
| Pump.Fill | forwardproxy/forwardproxy.go:758-788 | The reading half of the loop in each mode, with the switch to raw after eight turns; the source moves on or ends |
| EightFrames.EncoderTurnInFigures | forwardproxy/forwardproxy.go:758-773 | Each of the first eight turns, by number, sends what one read of 65530 - pad bytes brought behind its three header bytes, and nothing for a read that brought none |
| EightFrames.LaterTurns | forwardproxy/forwardproxy.go:786-788 | From the ninth turn on encoder and decoder pass on what one read of 65536 bytes brought |
| Pump.Emit | forwardproxy/forwardproxy.go:789-812 | The writing half: only `buf[0:nr]` is written, the callback gets what was accepted, and write error, flush error and short write are reported in that order |
| Pump.DeliverTurn | forwardproxy/forwardproxy.go:757-819 | One chunk through a faulty writer and then the rest is the delivery of the whole |
| Pump.FlushingIoCopy | forwardproxy/forwardproxy.go:750-821 | Terminates; writer and error end up as a function of the two ends alone, whatever the buffer held; `written`, the sum of all callbacks and the bytes accepted are equal, and no callback is for 0 bytes |
| Tunnel.BufferPool.Get | forwardproxy/forwardproxy.go:722-724 | A full-size buffer, any one of the pool or a new one, that is in the pool no longer |
| Tunnel.BufferPool.Put | forwardproxy/forwardproxy.go:728 | The buffer goes back with its contents |
| Tunnel.Stream | forwardproxy/forwardproxy.go:720-734 | Copies with a pooled buffer, returns it, half-closes the far side where that is possible, and reports exactly the bytes accepted |
| Tunnel.DualStream | forwardproxy/forwardproxy.go:719-741 | Padding is added towards the client and removed towards the target; the error is that of the stream towards the client; each direction reports exactly the bytes its writer accepted; both far sides are half-closed |
| Interleaving.TurnKeepsOutcome | forwardproxy/forwardproxy.go:757-819 | A turn of a copy loop does not change where the loop will end, and brings it nearer |
| Interleaving.DirectionsAreIndependent | forwardproxy/forwardproxy.go:735-740 | The two loops at the same time, their turns in any order: each direction writes and returns what it would alone, and both end |
| Tunnel.TwoRuns | forwardproxy/forwardproxy.go:720-734 | Two runs on equal sources and writers with different buffer contents write the same bytes and return the same counts and errors, in all three modes |
| TunnelProofs.RawProduces | forwardproxy/forwardproxy.go:786-788 | Raw copying hands on every byte, however the reads fall |
| TunnelProofs.DecoderProduces | forwardproxy/forwardproxy.go:774-788 | What the decoder loop hands over is the decoding of the byte stream: it does not see how its input was cut into reads |
| TunnelProofs.FramesFit | forwardproxy/forwardproxy.go:760-773 | Every frame the encoder makes has 1 to 65530 - pad payload bytes, there are at most eight, and with no empty read the stream is properly framed |
| TunnelProofs.FramesCarryThePayload | forwardproxy/forwardproxy.go:760-788 | Frames and raw tail together carry the source's bytes, none lost, doubled or moved |
| TunnelProofs.EncoderProduces | forwardproxy/forwardproxy.go:760-788 | What the encoder loop hands over is the wire format of those frames and that tail, with the source's end |
| TunnelProofs.AcceptedIsPrefix | forwardproxy/forwardproxy.go:789-812 | With any short writes, write errors and flush errors the writer has accepted a prefix of what was meant for it |
| TunnelProofs.OneChunk | forwardproxy/forwardproxy.go:789-812 | What one chunk leaves: the bytes the write accepted; the error of the write, or else of the flush, or else a short write; and no flush after a failed write |
| TunnelProofs.FirstFaultEnds | forwardproxy/forwardproxy.go:789-819 | The first chunk that fails ends the copy with that error; with none, the end of the source does, nil for EOF |
| TunnelProofs.NoErrorMeansAll | forwardproxy/forwardproxy.go:789-819 | A copy that returns no error has delivered everything and met a clean end |
| TunnelProofs.CopyWithFaults | forwardproxy/forwardproxy.go:789-820 | End to end with any faults: what was sent is a prefix of the ideal stream, all of it when no error is returned |
| TunnelProofs.CopyWithoutFaults | forwardproxy/forwardproxy.go:750-821 | Without faults the ideal stream is sent whole; EOF becomes nil, any other end is returned |
| TunnelProofs.PaddingRoundTrip | forwardproxy/forwardproxy.go:756-788 | For every payload, padding choice and chunking on both sides, decoder after encoder returns payload and end exactly, if and only if the encoder sent eight frames or had nothing left; no empty read suffices |
| TunnelProofs.EmptyReadsBreakRoundTrip | forwardproxy/forwardproxy.go:760-765 | A source whose first eight reads are empty breaks the round trip |
| EightFrames.EightFramesAreSent | forwardproxy/forwardproxy.go:713-773 | A source whose first eight reads bring data is sent as exactly eight frames, one for each read with its own padding, and everything after the eighth read raw |
| EightFrames.EightFramesAreRead | forwardproxy/forwardproxy.go:774-788 | Of a stream of frames the decoder unframes the first eight; whatever follows comes out as it is, frames included |
| EightFrames.OneByteReads | forwardproxy/forwardproxy.go:760-773 | A source that brings single bytes has the first eight framed one by one, the eighth too, and the ninth not |
| TunnelProofs.TunnelDeliversPrefix | forwardproxy/forwardproxy.go:750-821 | With faulty writers on both sides and the stream between them cut anywhere, only a prefix of the payload comes out |
| TunnelProofs.EncoderCounts | forwardproxy/forwardproxy.go:709-714 | The encoder counts payload plus overhead, at most 2064 bytes for streams of any length and any reads, empty ones included |
| EightFrames.CostOfEightFrames | forwardproxy/forwardproxy.go:709-773 | The cost of those eight frames is 24 bytes and the sum of the eight paddings, 2064 when every padding is 255 |
| TunnelProofs.CountedBytes | forwardproxy/forwardproxy.go:760-788 | The decoder never counts more than the payload, and all of it exactly when the encoder framed the stream well |
| Calendar.ResetsAreDueDates | forwardproxy/traffic_stats.go:159-219 | For any ordered run of ticks without failures, resets equal the distinct ticked reset days that are not the initial guard |
| Calendar.AtMostOneResetAMonth | forwardproxy/traffic_stats.go:178-219 | Ticks of one calendar month bring at most one reset |
| Calendar.InOrderOfDays | forwardproxy/traffic_stats.go:196-197 | The order of dates that the theorems use is that of year, month and day as one number |
| AccountingProofs.UserStep | forwardproxy/traffic_stats.go:61-279 | Every event keeps, for every user: each byte in one place, the window of a reset exact, no counter or stats file above what was earned since the last durable zeroing |
| AccountingProofs.GuardStep | forwardproxy/traffic_stats.go:199-219 | The guards are never in the future, the one in memory is not behind the one on disk, and a reset is for a date later than both |
| AccountingProofs.GuardedStep | forwardproxy/traffic_stats.go:221-278 | No single event changes the archive of the date in the guard file |
| AccountingProofs.ArchiveStep | forwardproxy/traffic_stats.go:230-278 | From the zeroing on the archive of the reset is complete, and so is that of the date the guard file stands for |
| AccountingRuns.InvRun | forwardproxy/traffic_stats.go:61-279 | The whole invariant holds after every run, crashes, restarts and failing writes included |
| AccountingRuns.GuardedArchiveIsImmutable | forwardproxy/traffic_stats.go:202-278 | Once the guard file holds a date, no continuation changes that date's archive |
| AccountingRuns.PastArchive | forwardproxy/traffic_stats.go:202-278 | The same for every earlier date; the guard file never goes back |
| AccountingRuns.GuardComesLast | forwardproxy/traffic_stats.go:221-278 | When a reset's date is in the guard file, its archive is on disk and complete, and the stats file holds nothing from before the zeroing |
| AccountingRuns.NoResurrection | forwardproxy/traffic_stats.go:76-94 | In every continuation, also in the middle of a later reset or rollback, no counter and no stats file holds a byte counted before that zeroing: a restart cannot bring archived totals back |
| AccountingRuns.Conservation | forwardproxy/traffic_stats.go:63-273 | In every reachable state earned bytes equal billed, live, in-flight and lost bytes, and nothing is counted twice |
| AccountingRuns.WindowCountsAdds | forwardproxy/traffic_stats.go:223-273 | While a user's window is open it counts exactly that user's adds, whatever else happens |
| AccountingRuns.ResetBookkeeping | forwardproxy/traffic_stats.go:223-261 | From snapshot load to the attempt to persist: the adds before and after the zeroing store, exactly |
| AccountingRuns.CommittedResetLoses | forwardproxy/traffic_stats.go:223-261 | A reset that reaches the disk bills the snapshot and loses exactly the adds between snapshot load and zeroing store; later adds are the new counter |
| AccountingRuns.RolledBackResetLoses | forwardproxy/traffic_stats.go:261-273 | A reset that is rolled back loses exactly the adds from snapshot load to restoring store and leaves the counter at the snapshot |
| AccountingRuns.QuietRunLosesNothing | forwardproxy/traffic_stats.go:223-273 | With no add inside a window, no number of resets, failures and retries loses a byte |
| AccountingRuns.SameDayRestart | forwardproxy/traffic_stats.go:71-94 | After a crash and restart on the reset day the first tick resets once more if and only if stats file and guard file could be read and hold another date; otherwise the reset is skipped |
| ResetRuns.RunInStep | forwardproxy/traffic_stats.go:163-278 | Over a run without failing resets, resets done and under way and the guard in memory agree with the count over the dates the ticks read |
| ResetRuns.ResetsOfARun | forwardproxy/traffic_stats.go:159-278 | In any such run, with any adds and unsaved guard or stats files, resets brought to an end and the one under way are as many as the due dates among the dates the ticks read |
| ResetRuns.ResetsAreFew | forwardproxy/traffic_stats.go:159-278 | In any run of one process, aborted, rolled-back and retried resets included, at most one reset is brought to its end for each due date |
| Overwriting.VisitAll | forwardproxy/traffic_stats.go:223-228 | For any number of users a `Range` left alone ends with exactly what the counters hold |
| Overwriting.ToIdle | forwardproxy/traffic_stats.go:195-279 | From wherever the writer is, with every write failing, its turn ends with the disk as it was |
| Overwriting.ArchiveIsTruncated | forwardproxy/traffic_stats.go:242-243 | While a reset has yet to open the archive of a date, or another date is remembered on a reset day, or the reset day is to come, some run opens that archive, for any number of users |
| Overwriting.FrozenRun | forwardproxy/traffic_stats.go:202-278 | In all other cases no run changes the archive of the date |
| Overwriting.ArchiveStaysExactly | forwardproxy/traffic_stats.go:202-278 | For every date: its completed archive stays in every continuation if and only if no reset under way has yet to open it, it is not that of a reset day to come, and, if it is that of today and today is a reset day, no other date stands in the guard file or in the memory of the running process |
| Overwriting.ArchiveStaysByGuard | forwardproxy/traffic_stats.go:202-278 | Today's archive on a reset day, with a guard file: if and only if it holds the day; without one: if and only if the process is down or remembers no other date |
| Overwriting.PastArchiveStays | forwardproxy/traffic_stats.go:221-243 | The archive of a past date: if and only if no reset begun on that date has yet to open it, whatever the guards hold |
| Overwriting.ArchivedTwice | forwardproxy/traffic_stats.go:230-272 | For any users and any later reset date: a rolled-back reset, and the later archive holds the same counters, with nothing earned or billed in between |
| Overwriting.UnguardedArchiveCanBeOverwritten | forwardproxy/traffic_stats.go:242-278 | For any users: a completed and billed reset, an unsaved guard, a restart on the day, and the month's archive is replaced by one of zeros while all other files stay |
| Billing.BillsStep | forwardproxy/traffic_stats.go:242-278 | Every event keeps the bills on file: different dates, each archive complete, settled once the guard is saved |
| Billing.ArchivesHoldTheBill | forwardproxy/traffic_stats.go:221-278 | As long as no guard is lost between stats write and guard write, every byte counted for a user is in exactly one archive file of a committed date, in the counter, in flight, or lost |
| ArchiveFiles.OriginsRun | forwardproxy/traffic_stats.go:230-261 | Over every run each opened file holds what the last reset that opened it left there: nothing complete, or its snapshot |
| ArchiveFiles.FilesAgainstBills | forwardproxy/traffic_stats.go:221-278 | Over every run, per user: what the completed files hold plus the bills torn up equals what was billed plus what was completed and not persisted; files and bills agree if and only if those two do |
| ArchiveFiles.FileIsBillExactly | forwardproxy/traffic_stats.go:242-261 | A completed file is a bill, the one bill of its date not torn up, if and only if the last reset that completed it also persisted |
| ArchiveFiles.AllAreBills | forwardproxy/traffic_stats.go:242-261 | With no failing persist and no crash before it, every completed file is a bill or that of the reset under way |
| ArchiveFiles.NothingTorn | forwardproxy/traffic_stats.go:202-278 | With no guard lost, no bill's file is ever opened again |
| ArchiveFiles.FilesAreTheBills | forwardproxy/traffic_stats.go:221-278 | Under both conditions the files add up to what was billed and to the archive of the reset under way |
| ArchiveFiles.LostGuardBreaksTheBill | forwardproxy/traffic_stats.go:242-278 | After a lost guard the bill has grown by the counter while the files of any dates hold no more than before |
| ArchiveFiles.RollbackBreaksTheBill | forwardproxy/traffic_stats.go:230-272 | After a rolled-back reset the files of the two dates hold the counter twice while nothing was earned or billed |
| Losses.CrashLosesWhatIsNotOnFile | forwardproxy/traffic_stats.go:76-94 | A crash at any moment, with the stats file readable or not, loses exactly what is live or in flight and not on that file |
| Losses.CrashLosesSince | forwardproxy/traffic_stats.go:76-116 | The same over any run up to the crash in which the stats file is not replaced, plus all adds of the run |
| Losses.CrashAfterBootLoses | forwardproxy/traffic_stats.go:76-116 | A crash before the first stats write after a start loses exactly the adds since the start |
| Losses.CrashLoses | forwardproxy/traffic_stats.go:76-116 | A crash and a readable restart put a user back to what the last stats write loaded, at the end of a turn or inside a reset, and lose exactly the adds since that load |
| Losses.ResetCanLose | forwardproxy/traffic_stats.go:223-256 | From any single-user snapshot a run with `n` bytes added before the zeroing store loses exactly `n` |
| Process.TrafficStats.LoadOrStore | forwardproxy/traffic_stats.go:67 | A new key starts at zero, an existing one is left alone |
| Process.TrafficStats.AddInt64 | forwardproxy/traffic_stats.go:68 | The user's counter grows by the bytes and nothing else changes |
| Process.TrafficStats.AddTrafficForUser | forwardproxy/traffic_stats.go:63-69 | For a name that is not empty the counter under that very name grows by the bytes and no other changes, `unknown` included; for the empty name it is `unknown` |
| Process.TrafficStats.LoadInt64 | forwardproxy/traffic_stats.go:226 | One load reads the counter and changes nothing |
| Process.TrafficStats.LoadAll | forwardproxy/traffic_stats.go:223-228 | A `Range` under interference: every key present at its start and perhaps later ones, each with a value its counter had at some moment of the call; counters move only by what is earned |
| Process.TrafficStats.WriteTrafficStats | forwardproxy/traffic_stats.go:101-116 | Replaces the stats file by such a snapshot if the write works, else leaves the disk as it was |
| Process.TrafficStats.SaveLastResetDate | forwardproxy/traffic_stats.go:136-149 | The guard file becomes the date if the write works and stays if not, which is not reported; adds go on meanwhile |
| Process.TrafficStats.WriteArchive | forwardproxy/traffic_stats.go:230-247 | Succeeds exactly when opening and writing work; then the date's archive is the snapshot, else it is untouched if it could not be opened and partial if it could; adds go on meanwhile |
| Process.TrafficStats.TakeSnapshot | forwardproxy/traffic_stats.go:223-228 | The snapshot of a reset holds every user present at its start, each with a value read during the call |
| Process.TrafficStats.ZeroCounters | forwardproxy/traffic_stats.go:249-256 | Of every user of the snapshot nothing counted before the call is left in the counter; adds on the way may stay; disk and guard are untouched |
| Process.TrafficStats.RollBack | forwardproxy/traffic_stats.go:264-272 | Every user of the snapshot is back at its value, plus at most what was added during the call; disk and guard are untouched |
| Process.TrafficStats.CommitReset | forwardproxy/traffic_stats.go:258-278 | Completes exactly when the zeroed stats can be written: only then the guard in memory advances, and the guard file if its own write works; a failed write leaves the disk as it was and the counters refilled |
| Process.TrafficStats.PerformReset | forwardproxy/traffic_stats.go:221-278 | Which file operations work decides between aborted, rolled back and completed; and outcome by outcome what archive, stats file, guards and counters hold: the archive holds for every user a value read during the reset; completed, counters and stats file hold nothing from before it; rolled back, counters are at the archived values or above; other dates' archives are untouched |
| Process.TrafficStats.CheckAndPerformScheduledReset | forwardproxy/traffic_stats.go:195-279 | The early returns in their order and, by which file operations work, the outcome and what it leaves in memory and on disk, amounts included; it reads one date and brings at most one reset to its end |
| Process.TrafficStats.WriterTurn | forwardproxy/traffic_stats.go:163-174 | One tick: the check if a reset day is set, then the write; if that works the stats file covers every user with values read after the check, else it is as the check left it |
| Process.TrafficStats.StatsWriter | forwardproxy/traffic_stats.go:159-176 | The dates are what the clock showed at the ticks of the run, and the completed outcomes its resets; when archive and stats writes work they are as many as the due dates among those dates, and never more whatever fails; none without a reset day |
| Process.TrafficStats.LoadTrafficStats | forwardproxy/traffic_stats.go:76-94 | Counters become those of the stats file if it can be read and stay empty else; the guard is loaded exactly when both files can be read |
| Process.TrafficStats.Kill | forwardproxy/traffic_stats.go:44-57 | A dying process keeps its disk and nothing else |
| Guarantees.CodeKeepsInvariant | forwardproxy/traffic_stats.go:61-279 | Between any two calls, after any run of the imperative code with crashes and failures, the whole invariant of the machine holds of its fields and files |
| Guarantees.EveryByteIsAccountedFor | forwardproxy/traffic_stats.go:63-279 | While the writer rests, counted bytes equal committed snapshots plus the live counter plus what was lost |
| Guarantees.FilesAreInOrder | forwardproxy/traffic_stats.go:221-278 | For a reset in the guard file the archive on disk is complete and the stats file holds nothing from before it |
| Guarantees.GuardIsSound | forwardproxy/traffic_stats.go:197-219 | The guard in memory is not in the future and not behind the guard file |
| Calendar.ResetsSnoc | forwardproxy/traffic_stats.go:199-219 | One more tick adds one reset exactly if it is due for the guard the run has led to |
| Cells.StepRefines | forwardproxy/traffic_stats.go:63-69 | Each step of the two-step add is, to everybody else, no step or one step of the machine with atomic adds; pointers held by calls stay those in the map |
| Cells.TwoStepAddRefinesAtomicAdd | forwardproxy/traffic_stats.go:63-69 | Any interleaving of any number of calls, racing first adds and reset steps included, is a run of the accounting machine |
| Cells.CellsAreNeverReplaced | forwardproxy/traffic_stats.go:67 | Once a key has a counter cell it has that cell for good |
| Cells.NoLostUpdate | forwardproxy/traffic_stats.go:63-69 | Counted plus pending bytes equal all bytes reported under that name (for `unknown`, also those reported without one), over every run; likewise for the counter itself when no zeroing or restoring store touches it |
| Cells.TwoDirectionsAddUp | forwardproxy/forwardproxy.go:719-741 | Two lists of calls, in any interleaving, add up in the user's counter |
| Metering.MeteredTunnel | forwardproxy/forwardproxy.go:719-741 | A tunnel's callbacks, handed on in any interleaving, raise its user's counter by exactly the bytes that target and client accepted |
| Quota.TunnelsWereAdmitted | forwardproxy/forwardproxy.go:505-517 | Every open named tunnel was let in by the gate at a step of the run since the last crash |
| Quota.BytesComeFromAdmittedTunnels | forwardproxy/forwardproxy.go:505-517 | Every byte added to a user with a positive quota comes from a tunnel admitted when the counter was strictly below it |
| Quota.LetIn | forwardproxy/forwardproxy.go:505-517 | A request without a positive quota, or with a counter below it, gets a tunnel under the name it gave |
| Quota.TunnelsKeepTheirNames | forwardproxy/forwardproxy.go:503-517 | Over any run without a crash no tunnel changes the name it counts under |
| Quota.CounterCountsItsTunnels | forwardproxy/traffic_stats.go:63-69 | Over any run that does not lower a counter, it grows by every byte that tunnels of that name report and by no other; `unknown` grows by those of tunnels without a name and of that name |
| Quota.CounterStep | forwardproxy/traffic_stats.go:63-69 | A counter moves down only at its zeroing, its restoring or a crash; otherwise it takes exactly what is added |
| Quota.RefusalLasts | forwardproxy/forwardproxy.go:505-517 | Once refused a user gets no tunnel in any continuation without such an event |
| Quota.RefusalEnds | forwardproxy/forwardproxy.go:505-517 | The refusal ends exactly with a zeroing, a crash, or a rollback to a snapshot below the quota |
| Quota.AnonymousTunnelsPassNoGate | forwardproxy/traffic_stats.go:61-69 | Tunnels without a name add to `unknown` however far its quota is exceeded |
| Base64.DecodeEncode | forwardproxy/caddyfile.go:27-32 | Decoding an encoding gives the bytes back without error |
| Base64.EncodeInjective | forwardproxy/caddyfile.go:27-32 | Different bytes have different encodings |
| Base64.EncodedText | forwardproxy/caddyfile.go:29 | An encoding has the reserved length, only alphabet and padding characters, and no space |
| Base64.EncodedCharacter | forwardproxy/caddyfile.go:29-30 | Character by character, without the codec: the entry of the written-out alphabet at the number that the next six bits form, zeros past the end, and `=` past the data |
| Base64.TestVectors | forwardproxy/caddyfile.go:29-30 | The vectors of section 10 of RFC 4648 |
| Base64.DecodeAcceptsExactly | forwardproxy/forwardproxy.go:498-499 | Decoding succeeds exactly for texts in fours whose characters are in the written-out alphabet, with at most two `=` at the very end |
| Base64.EncodeInto | forwardproxy/caddyfile.go:29-30 | The in-place loop fills the buffer with exactly the encoding |
| Base64.DecodeInto | forwardproxy/forwardproxy.go:498-499 | The in-place loop writes exactly the decoded bytes, stops at the first error, and leaves the rest of an over-long buffer as it was |
| Credentials.EncodeAuthCredentials | forwardproxy/caddyfile.go:27-32 | A new buffer with the encoding of user, byte 58, password |
| Credentials.BasicAuth | forwardproxy/caddyfile.go:44-59 | Accepts exactly two arguments with a name that is not empty and has no colon, and appends their credential |
| Credentials.UserRoundTrip | forwardproxy/forwardproxy.go:498-501 | From the over-long buffer with its trailing zeros the user comes back whole, whatever the password; the credential holds no space |
| Credentials.CredentialInjective | forwardproxy/caddyfile.go:49-59 | A credential stands for one user and password only |
| Credentials.CredentialOfAB | forwardproxy/caddyfile.go:27-32 | The credential of user `a` and password `b` is `YTpi` |
| Credentials.CheckCredentials | forwardproxy/forwardproxy.go:487-523 | The loop over the credentials decides as the specification does: split, scheme, comparison, user, quota |
| Credentials.AdmittedExactly | forwardproxy/forwardproxy.go:487-523 | A user is admitted (or refused for quota) exactly when the header is the basic scheme, one space and the credential of one of its accounts; no header makes the program panic |
| Credentials.RefusedExactly | forwardproxy/forwardproxy.go:488-496 | Which refusal for which header: not two parts around one space, another scheme, or a second part that is no configured credential |
| Credentials.QuotaUnderOwnName | forwardproxy/forwardproxy.go:502-516 | A request that presents an account is refused for quota exactly when the quota under the very text of its user is positive and the counter under that text has reached it; else it is admitted |
| Credentials.NamesDiffer | forwardproxy/forwardproxy.go:508-510 | No two users share a text, and so neither counter nor quota |
| Credentials.BasicInAnyCase | forwardproxy/forwardproxy.go:492-494 | The accepted schemes written out for all byte strings: `basic` in any mixture of cases, where the i may be the dotted capital I, and nothing else |
| Credentials.PresentedIsUnique | forwardproxy/forwardproxy.go:495-503 | A header presents at most one account |
| Credentials.PanicsExactly | forwardproxy/forwardproxy.go:500-501 | The slice before the colon fails exactly for a presented credential that decodes to a text without one |
| Credentials.APanickingHeader | forwardproxy/forwardproxy.go:500-501 | A configured credential and a header for which it does fail |
| Credentials.DecodeUser | forwardproxy/forwardproxy.go:498-501 | The user read from the buffer is the one the specification reads |
| Text.TailOfParts | forwardproxy/acl.go:51-52 | One text ends another at a separator, or equals it, exactly when its parts are the other's last parts |
| Networks.PrefixIsMask | forwardproxy/acl.go:32-40 | Comparing bytes under the mask is comparing a prefix of the bits |
| Networks.Contains | forwardproxy/acl.go:32-35 | The byte loop answers whether address and network, both shortened to IPv4 where they can be, agree in the network's first bits |
| Networks.InsideInFigures | forwardproxy/acl.go:32-35 | An address is in a network exactly when the bytes that the prefix covers whole are equal, and the next one is after division by the power of two that drops its last bits |
| Networks.MappedAddress | forwardproxy/acl.go:32-35 | The 16-byte form ::ffff:a.b.c.d, byte for byte, is in every network that its four bytes are in, and no other |
| Networks.NotMapped | forwardproxy/acl.go:32-35 | Any other 16-byte address is in no IPv4 network |
| Networks.MappedNetwork | forwardproxy/acl.go:32-35 | An IPv4 network in IPv6 form, as ::ffff:0:0/96, holds the addresses of the network it stands for |
| Networks.WideMappedNetwork | forwardproxy/acl.go:32-35 | With a prefix of at most 96 bits such a network holds all IPv4 addresses and no others |
| Networks.PrivateRanges | forwardproxy/forwardproxy.go:175-182 | The six networks denied by default, as ranges of addresses |
| Acl.WildcardIsLabelwise | forwardproxy/acl.go:48-59 | The string test after trimming one dot holds exactly when the rule's labels are the host's last labels, or all of them; no match begins inside a label |
| Acl.HostIsTrimmedOnce | forwardproxy/acl.go:48-59 | A host without a leading dot is compared as written, one with it without that one dot |
| Acl.TryMatch | forwardproxy/acl.go:32-70 | The three kinds of rules decide by prefix of bits, by labels, and always; allow and deny as configured |
| Acl.IsValidDomainLite | forwardproxy/acl.go:103-122 | Accepts exactly letter-digit-hyphen names with labels of 1 to 63 characters, and otherwise reports the first bad character or else the first bad label |
| Acl.DomainCharacters | forwardproxy/acl.go:103-111 | The accepted characters as a written-out set |
| Acl.NewAclRule | forwardproxy/acl.go:72-100 | `all` before networks, networks and single addresses before names, `*.` for subdomains; fails exactly when none fits |
| Acl.SubjectForms | forwardproxy/acl.go:72-99 | What each form of a subject reads as: `all`; a network; an address of four bytes, of four in sixteen, and of sixteen; `*.` and a name; a name |
| Acl.AssembleRules | forwardproxy/forwardproxy.go:165-189 | Entry by entry and subject by subject the rule in its place is what the subject reads as, with the verdict of its own entry; then the private ranges denied, then all allowed; fails exactly when some subject is unreadable |
| Acl.FlatAt | forwardproxy/forwardproxy.go:166-174 | The place of each subject: behind those of the entries before and of the subjects before it in its own entry |
| Acl.DefaultForIpv4 | forwardproxy/forwardproxy.go:175-189 | An IPv4 address that no configured rule matches, in 4 bytes or in 16, is refused exactly in the four ranges written out |
| Acl.DefaultForIpv6 | forwardproxy/forwardproxy.go:175-189 | Any other 16-byte address that no configured rule matches is refused exactly if it is ::1 or in fe80::/10 |
| Acl.HostIsAllowed | forwardproxy/forwardproxy.go:625-637 | True exactly when a first matching rule exists and allows |
| Acl.FirstMatchDecides | forwardproxy/forwardproxy.go:625-637 | No rule behind the first match changes the verdict |
| Acl.NothingAfterAll | forwardproxy/acl.go:61-70 | Rules behind an `all` rule never change the verdict on an address |
| Acl.TotalDecision | forwardproxy/forwardproxy.go:174-189 | For every configured list, host and address: the first configured match decides, and without one exactly the private addresses are refused |
| Acl.TwoPassesDiffer | forwardproxy/forwardproxy.go:582-615 | The two passes refuse what a plain first match allows exactly when an address or `all` rule that allows precedes the domain rule that denies |
| Acl.DomainFirstAgrees | forwardproxy/forwardproxy.go:582-615 | When the first match of all is a domain rule the two passes agree |
| Acl.AfterAllStillDenies | forwardproxy/forwardproxy.go:582-592 | A domain rule behind an `all` rule has no say over addresses and still denies the host |
| Dialling.AtoiDecimal | forwardproxy/forwardproxy.go:640 | Reading a number's decimal text, with or without zeros in front, with no sign, a plus or a minus, gives the number if it fits into 64 bits and an error if not |
| Dialling.DigitsAreNumeral | forwardproxy/forwardproxy.go:640 | Every text of digits is the decimal text of a number with zeros in front |
| Dialling.AtoiRefuses | forwardproxy/forwardproxy.go:640 | Every other text is an error: no digits, or another character than a sign in front |
| Dialling.PortIsAllowed | forwardproxy/forwardproxy.go:639-658 | Allowed exactly for numbers 1 to 65535 that are in the configured list, if there is one |
| Dialling.PortByNumber | forwardproxy/forwardproxy.go:639-658 | The same in terms of the number whose decimal text the port is |
| Dialling.HostIsDenied | forwardproxy/forwardproxy.go:582-592 | The pass over domain rules denies exactly when the first domain rule that matches the host denies |
| Dialling.DialAny | forwardproxy/forwardproxy.go:604-615 | Exactly the allowed addresses are tried, in lookup order, up to and including the first success, each with the given port |
| Dialling.DialContextCheckAcl | forwardproxy/forwardproxy.go:545-618 | Result and all attempts in every case: bad network or address, upstream, port, denied host, failed lookup, and the loop over addresses; every attempt without an upstream is an address with the port that was checked |
| Dialling.CandidatesAreAllowed | forwardproxy/forwardproxy.go:604-615 | The addresses tried are the resolved ones that a first match allows |
| Dialling.PrivateIsNeverTried | forwardproxy/forwardproxy.go:174-189 | With the provisioned list a private address is dialled only if it was resolved and a configured rule is the first match and allows it |

## Left out

- HTTP around the core: `ServeHTTP` routing, PAC file and hidden pages, probe resistance, header forwarding, TLS and the set-up of dialers and upstreams.
- `forwardproxy/httpclient/httpclient.go`, `forwardproxy/byte_size.go`, the rest of `UnmarshalCaddyfile` and the shell and Python dashboards; quotas are given numbers.
- Tunnel.DualStream: the method runs its two directions one after the other. `Interleaving` shows that turns of the two loops in any order give the same, at the grain of whole turns; they share no reader, writer or buffer. It logs the callbacks; `Metering.MeteredTunnel` adds the logs up.
- The bytes a hijacked connection had already buffered (`forwardproxy/forwardproxy.go:696-699`), which are written and not counted.
- The once-only start of the writer in `Provision` (`forwardproxy/forwardproxy.go:264-279`): the model has one writer.
- JSON text, permissions, directories and the rename: the stats file and the guard file are replaced whole or not at all; the archive may be left truncated. A guard file is taken to hold a date this code wrote, and not one in the future.
- Per-user totals are unbounded numbers; the program assumes they stay below 2^63.
- Process.TrafficStats.StatsWriter: the exact count is for runs on which no reset fails; with failing resets it is an upper bound. The loop has no crash in it: `Kill` and `LoadTrafficStats` come between calls, and the theorems over runs have crashes anywhere.
- Credentials.CheckCredentials: the log placeholder set for requests that are refused (`forwardproxy/forwardproxy.go:524-541`) and the timing of the comparison. The decoder refuses line breaks, which a header cannot hold.
- Credentials.BasicInAnyCase: the scheme is lowered as `strings.ToLower` does for letters that can yield plain ones; other letters never make a match.
- Acl.NewAclRule: how address texts are parsed is a parameter; a network is taken as Go stores it, base in 4 or 16 bytes and length of the mask.
- Error texts and HTTP status codes beyond the kind of refusal.
