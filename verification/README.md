# Verification of Riffra's hard cores

A Dafny 4.11 model of the parts of Riffra that hold state, parse bytes or follow a protocol, with proofs over every
input, every run or every interleaving. `dafny verify dfyconfig.toml` checks it all.

What the source changes step by step is modelled as methods over fields, sequences, maps and loops, each proved equal to
a specification function; what the source promises is then proved about those functions.

- **Standard MIDI File codec** (`Bytes`, `Vlq`, `TickConversion`, `LyricMatching`, `StableSort`, `NoteOverlap`,
  `SmfFormat`, `SmfSpelling`, `SmfContents`, `Utf8`, `SmfParser`, `SmfTracks`, `SmfEncoder`, `SmfDecoding`,
  `SmfPlayback`, `SmfSinging`, `SmfStaging`, `SmfClockTrack`, `SmfChunks`, `MusicalClock`, `SmfRoundTrip`,
  `SmfAcceptance`, `SmfDuration`, `SmfFiles`, `SmfFileSpelling`, `SmfExport`, `SmfExportClock`, `MidiExport`).
  `SmfFormat` says what a file means as functions of its bytes, with a plain search for the note a release ends and the
  direct rule for lyrics. `SmfSpelling` and `SmfFileSpelling` write tracks and files as the standard does, independently
  of the parser, and show that it reads exactly what is written so. `SmfParser` reads the same meaning with a cursor,
  per-key queues and the count-and-XOR index; `SmfContents` and `SmfFiles` say what holds of every track and file it
  accepts. `SmfEncoder` writes a file with loops and equals the function `Encode`. The main theorem,
  `SmfRoundTrip.ExportRoundTrip`, says that what is written parses back to what was given,
  `SmfAcceptance.AcceptedExactlyWhen` when something is written at all, `MusicalClock.ExportKeepsClock` that cutting the
  clock at an origin keeps its meaning, and `SmfExport` and `SmfExportClock` what the written bytes are, event by event.
- **Canonical commit, undo and redo** (`CanonicalSession`, `CommitLaws`, `UndoHistory`, `AppCore`). Session content is
  abstract and normalisation is any idempotent function of it; storage and the clock answer as they like.
- **Host switching and the event router** (`EventBuffer`, `EventRouter`, `HostSwitching`, `HostConnection`). Every
  action under one lock is one step, and events of any generation handed out may arrive between any two steps.
- **Background jobs** (`JobRules`, `Jobs`). One step is one hold of a job's status lock; runs interleave steps freely.
- **Session storage** (`SessionFiles`, `SessionStore`, `PersistentCore`). A save is a sequence of single writes,
  unfinished contents included, that may be cut off anywhere. `PersistentCore` puts the canonical core on top of it.
- **Startup** (`StartupRules`, `StartupRetries`, `StartupReleases`, `StartupPromise`, `StartupRuns`, `Startup`). A run
  is the list of questions asked with their answers, for every function that answers them. A command names no generation
  of the sidecar; the answer says which one it has reached, anywhere between those seen before and after it.
- **WAV structure, score import** (`Wav`, `WavWriting`, `ScoreReset`, `ScoreWindows`). `WavWriting` writes files field
  by field, and shows that exactly these are read, as what was written.

Errors of the source are modelled as `None` or as an error value without the message text. Every lemma is proved without
Dafny's automatic induction.

Where the code and its documentation differ the code is followed, and the model says exactly when the documentation
holds:

- `SessionStore::save` documents that an error leaves the active file in place (storage.rs:167-170). A prune that cannot
  list the directory fails after the replacement (storage.rs:212-213). `SessionFiles.ErrorsAndFiles`: an error leaves
  the file in place if and only if it is not that one, or the new file is the old one; and it is that one if and only if
  everything up to the replacement succeeds and the directory cannot be listed. `SessionStore.ErrorThatReplaces` is a
  run that shows it.
- Startup documents that the sidecar stays muted until a safe device, an accepted arrangement and the same generation
  have been seen (startup.rs:3-6). The generation is read anew after the safe status (startup.rs:197), the mute is
  released after a failed restore too (startup.rs:251-286), and the request to release it goes to whichever generation
  is ready when it is sent (startup.rs:434, command_bus.rs:73-93). `StartupPromise.PromiseKept`: an unmute keeps the
  promise if and only if that look finds the generation of the status, the restore was answered well, and the request
  reached the chosen generation. The look after the unmute (startup.rs:439) notices the last of these:
  `StartupPromise.SeenIsReached`. When startup reports no error, `StartupPromise.SuccessKeepsExactlyWhen` says that its
  last unmute keeps the promise if and only if the look after the safety check finds the generation of the status.
  `StartupReleases.BareReleaseDecides`: after a failed restore and a release answered well, startup ends in an error if
  and only if the same generation is then seen alive; otherwise it goes on, and may end without an error. Whole runs
  that break the promise: `StartupRuns.UnmutedElsewhere`, `StartupRuns.UnmutedTooLate` and
  `StartupRuns.FailureForgotten` without an error, `StartupRuns.UnmutedAfterFailure` with one.

Resetting controls where a part starts or ends does not end ramps. `ScoreWindows.RampsAtBoundaries`: the compiler cuts
ramps at all those places, so that one is under way at a reset if and only if a timing offset, applied after the cut,
has moved it there. `ScoreWindows.RampOverBoundary` is a score that shows it.

Assumptions taken from the source's types and callers: lyrics handed to the encoder are UTF-8 (`Singable`), a timebase
is checked by the conditions of `ProjectTimebase::validate`, a serialised session reads back as itself (`Faithful`),
Host generations start at 1, generations of the sidecar never fall and a command reaches one between those seen before
and after it (`Orderly`; sidecar_process.rs:64-72, command_bus.rs:73-91). While the first Host is installed no
disconnection is accepted although no switch lock is held: its event reader cannot report before the installation has
let go of the reader's status (host_connection.rs:633-637).

## Model

| member | source | states |
|---|---|---|
| VariableLength.RoundTrip | crates/riffra-host/src/midi_file.rs:253-266 | every number up to 0x0fffffff reads back from its encoding, cursor just past it, within four bytes |
| VariableLength.Shortest | crates/riffra-host/src/midi_file.rs:456-471 | whatever bytes a number was read from, its encoding is no longer |
| VariableLength.ReadVlq | crates/riffra-host/src/midi_file.rs:253-266 | the reading loop is the reading function on the bytes at the cursor |
| VariableLength.EncodeVlq | crates/riffra-host/src/midi_file.rs:456-471 | the buffer filled from the back is the encoding; refused exactly from 2^28 on |
| TickConversion.Identity | crates/riffra-host/src/midi_file.rs:35-39 | at equal resolutions a tick stays itself |
| TickConversion.Monotone | crates/riffra-host/src/midi_file.rs:35-39 | conversion never reorders ticks |
| TickConversion.HalfTick | crates/riffra-host/src/midi_file.rs:35-39 | the converted tick is within half a target tick, halves rounded up, for even and odd resolutions |
| TickConversion.NearestIsScaled | crates/riffra-host/src/midi_file.rs:35-39 | and it is the only tick that is |
| TickConversion.Injective | crates/riffra-host/src/midi_file.rs:35-39 | different ticks stay different when the target resolution is not smaller |
| StableSort.SortIsSorted | crates/riffra-host/src/midi_file.rs:248-249 | the sort orders by key |
| StableSort.FilterSort | crates/riffra-host/src/midi_file.rs:440 | stability: elements of equal key keep their input order, for any selection of them |
| SmfFormat.OldestIsFirst | crates/riffra-host/src/midi_file.rs:135-138 | the plain search finds the first open note of the key, and fails only when there is none |
| SmfFormat.RunIsDecodeThenPlay | crates/riffra-host/src/midi_file.rs:65-189 | reading a track event by event is decoding it first and playing the events after |
| SmfSpelling.DecodesWhatIsSpelled | crates/riffra-host/src/midi_file.rs:65-131 | bytes are read as a list of timed events if and only if they spell it: quantities of up to four digits; channel messages of all seven commands with one data byte for program changes and channel pressures and two for the others; the status given, or left out when it is that of the last channel message; metas and system messages with their payload, which leave that status as it was; and the odd system status followed by two data bytes |
| SmfContents.TrackHolds | crates/riffra-host/src/midi_file.rs:132-188 | a track holds one note for every note-on, one control for every control change, channel pressure and pitch bend, one lyric for every lyric that is text, in order, with channel, data and converted tick; every other event leaves nothing |
| SmfContents.TrackAcceptedExactlyWhen | crates/riffra-host/src/midi_file.rs:47-197 | a track is accepted if and only if its bytes spell events, no tick leaves 64 bits before or after conversion, and no note starts at the very last tick |
| Utf8.Utf8IsText | crates/riffra-host/src/midi_file.rs:99-103 | a lyric is taken for text if and only if it is the UTF-8 encoding of characters |
| SmfParser.ReadEvent | crates/riffra-host/src/midi_file.rs:71-131 | one event with running status, cursor moved, equals the decoding function, errors included |
| SmfParser.ReleaseHolds | crates/riffra-host/src/midi_file.rs:133-145 | popping the front of the key's queue ends exactly the note the plain search finds |
| SmfParser.Reader.NoteOn | crates/riffra-host/src/midi_file.rs:146-162 | a note-on appends the note, its position and its queue entry, and nothing else changes |
| SmfParser.Reader.NoteOff | crates/riffra-host/src/midi_file.rs:134-145 | a note-off is the release of the specification, failing exactly when it fails |
| SmfParser.Reader.Receive | crates/riffra-host/src/midi_file.rs:66-188 | one event updates tick, order, last tick, notes, lyrics and controls as the specification does |
| SmfParser.Reader.EndTrack | crates/riffra-host/src/midi_file.rs:190-195 | notes left in the queues end at their own track's end |
| SmfParser.EndQueues | crates/riffra-host/src/midi_file.rs:191-195 | in whatever order the queues are visited the outcome is that of ending every open note |
| SmfParser.ReadTracks | crates/riffra-host/src/midi_file.rs:47-197 | the track loop gathers exactly the tracks of the file, positions distinct |
| SmfParser.ParseSmf | crates/riffra-host/src/midi_file.rs:12-251 | the whole parser equals the meaning of the file, for every byte string and target, rejections included |
| SmfFileSpelling.FilesAreSpelled | crates/riffra-host/src/midi_file.rs:12-60 | tracks and a resolution are found in bytes if and only if they are the bytes of a file with them: any format number, a header of any length from six on, a resolution up to 0x7fff, the tracks with their lengths, anything after the last |
| SmfFileSpelling.FileAcceptedExactlyWhen | crates/riffra-host/src/midi_file.rs:12-197 | a file is accepted if and only if it is spelled as one, the target resolution is not zero, and each of its tracks is accepted |
| SmfTracks.ParsedIsOrdered | crates/riffra-host/src/midi_file.rs:66-189 | in every accepted track event numbers rise, durations are at least 1 and no note stays open |
| SmfTracks.PlacesDistinct | crates/riffra-host/src/midi_file.rs:157 | no two notes of a file share track, tick and event number |
| SmfTracks.FirstInFirstOut | crates/riffra-host/src/midi_file.rs:133-195 | the n-th note of a channel and key ends at the n-th release that counts, counted without queues, or with its own track |
| SmfDuration.DurationIsLeast | crates/riffra-host/src/midi_file.rs:240-247 | the duration reported for tracks is the least that covers one tick, every event of every track at its converted tick, every note end and every control |
| SmfFiles.FileNotes | crates/riffra-host/src/midi_file.rs:12-251 | for every accepted file: its tracks hold what their events say, each note ending in turn; its notes are those of its tracks, track after track, with the words its lyrics give them, stably sorted by start, and its controls likewise by tick |
| SmfFiles.FileDuration | crates/riffra-host/src/midi_file.rs:12-251 | for every accepted file: the reported duration is the least that covers one tick, all events of all tracks, all note ends and all controls |
| SmfDuration.ExportLasts | crates/riffra-host/src/midi_file.rs:240-247 | an exported score lasts as long as its clock, its notes and its controls |
| LyricMatching.BuildIndex | crates/riffra-host/src/midi_file.rs:201-214 | the index holds count and XOR of the unassigned notes of every group |
| LyricMatching.TallyAfterGiving | crates/riffra-host/src/midi_file.rs:229-236 | assigning a note takes it out of its own groups only, and no count drops below zero |
| LyricMatching.Locate | crates/riffra-host/src/midi_file.rs:216-226 | the index names the note the direct rule takes, and none when the rule takes none |
| LyricMatching.MatchLyrics | crates/riffra-host/src/midi_file.rs:199-238 | the indexed matching gives exactly the lyrics of the direct rule |
| LyricMatching.NeverOverwritten | crates/riffra-host/src/midi_file.rs:219-228 | a lyric once given is never replaced |
| LyricMatching.OneLyricMore | crates/riffra-host/src/midi_file.rs:216-238 | one lyric more goes to the next event when it is a note without a lyric, else to the only note without one at its tick in its track, else, when that track has none, to the only one at its tick in the file, else to nobody; nothing else changes |
| LyricMatching.EachToTheNext | crates/riffra-host/src/midi_file.rs:219-228 | when each lyric is followed at once by its note, each goes to that note and no other note gets one |
| NoteOverlap.NeighboursSuffice | crates/riffra-host/src/midi_file.rs:419-431 | in sorted order some two ranges overlap exactly when two neighbours do |
| NoteOverlap.CheckNeighbours | crates/riffra-host/src/midi_file.rs:419-431 | the check rejects exactly the overlapping inputs, whatever the unstable sort does with ties |
| SmfEncoder.EncodeTrack | crates/riffra-host/src/midi_file.rs:439-454 | the writing loop produces the chunk of the sorted events |
| SmfEncoder.GapsDecide | crates/riffra-host/src/midi_file.rs:443-447 | a track in order is refused exactly when a gap between events does not fit |
| SmfEncoder.EncodeNote | crates/riffra-host/src/midi_file.rs:370-397 | a note gives its range, its note-on with the lyric and its note-off; refused exactly when not representable |
| SmfEncoder.EncodeControl | crates/riffra-host/src/midi_file.rs:400-416 | a control gives its bytes; refused exactly when not representable |
| SmfEncoder.EncodePerformance | crates/riffra-host/src/midi_file.rs:366-418 | the clip loop writes every note and control of every clip at its offset, in input order |
| SmfEncoder.EncodeClock | crates/riffra-host/src/midi_file.rs:307-365 | the clock written is the one in force at the origin and every change inside the range |
| SmfEncoder.EncodeSmf | crates/riffra-host/src/midi_file.rs:297-437 | the encoder equals its specification, refusals included |
| SmfAcceptance.ClockAccepted | crates/riffra-host/src/midi_file.rs:303-365 | the clock of a valid timebase is refused only for a tempo out of range at the origin or inside the range |
| SmfAcceptance.AcceptedExactlyWhen | crates/riffra-host/src/midi_file.rs:297-437 | an export is accepted if and only if the resolution is 1 to 0x7fff, tempos and meters begin at tick zero and rise, every tempo heard in the range rounds to 1 to 0xffffff microseconds, every note and control is in its ranges, no two notes of one channel and key sound at one tick, and no gap or track is too long |
| SmfDecoding.DecodeMessage | crates/riffra-host/src/midi_file.rs:71-131 | the bytes of a note-on with lyric, a note-off or a control decode to its events and leave the rest |
| SmfDecoding.DecodeTrack | crates/riffra-host/src/midi_file.rs:439-454 | the bytes of a whole track decode to the events of its cues in order |
| SmfPlayback.LiftFindsItsNote | crates/riffra-host/src/midi_file.rs:134-138 | in an export without overlaps the oldest open note at a release is the one being released |
| SmfPlayback.PlayRest | crates/riffra-host/src/midi_file.rs:61-189 | playing the rest of an export keeps notes, controls, lyrics and event numbers exactly as written so far |
| SmfSinging.ParsePerformance | crates/riffra-host/src/midi_file.rs:47-197 | the parsed performance track holds each note closed with its own duration |
| SmfSinging.LyricsReturn | crates/riffra-host/src/midi_file.rs:199-238 | each lyric of an export goes back to its own note |
| SmfStaging.ExportIsStaged | crates/riffra-host/src/midi_file.rs:366-440 | sorted, each note is pressed once and lifted once, later, with its key free in between |
| SmfStaging.PressedInOrder | crates/riffra-host/src/midi_file.rs:440 | the note-ons in track order are the stable sort by start of the input notes |
| SmfStaging.ChangedInOrder | crates/riffra-host/src/midi_file.rs:440 | the controls in track order are the stable sort by tick of the input controls |
| SmfClockTrack.DecodeClock | crates/riffra-host/src/midi_file.rs:434 | the bytes of the clock track decode to its meta events |
| SmfClockTrack.ReadItems | crates/riffra-host/src/midi_file.rs:307-365 | a reader of the decoded clock has in force at a tick the last event of the kind at or before it |
| SmfClockTrack.CutKeepsChanges | crates/riffra-host/src/midi_file.rs:348-365 | cutting a list of changes at an origin and an end keeps which change is in force at each tick between |
| MusicalClock.ExportKeepsClock | crates/riffra-host/src/midi_file.rs:307-365 | at every tick of the range tempo and meter read from the file are those of the project, shifted by the origin, each meter with 24 clocks a click and eight 32nds a quarter |
| MusicalClock.MicrosAreNearest | crates/riffra-host/src/midi_file.rs:322-328 | the tempo written is the nearest number of microseconds, halves rounded up |
| SmfExport.ExportIsFormatOne | crates/riffra-host/src/midi_file.rs:432-435 | every accepted export is spelled as a file of format 1 with exactly two tracks, at the resolution of the project, with nothing after them |
| SmfExport.ExportedPerformance | crates/riffra-host/src/midi_file.rs:366-454 | the second track from its bytes: events in order, at one tick the note-offs first; the note-offs, velocity zero, are those of all notes; everything else is the note-ons, each with its lyric just before it, and the controls, clip by clip, stably sorted; one end of track at the last tick |
| SmfExportClock.ExportedClock | crates/riffra-host/src/midi_file.rs:330-365 | the first track from its bytes: tempos and meters and nothing else, in order, at one tick the tempo first, one of each at its start and one for every change inside the range; one end of track at the last tick |
| SmfChunks.FileBack | crates/riffra-host/src/midi_file.rs:432-435 | header and two chunks read back as written |
| SmfRoundTrip.ExportRoundTrip | crates/riffra-host/src/midi_file.rs:297-437 | whatever is exported parses at the same resolution to exactly the given notes with lyrics and the given controls, stably sorted, and their duration; channel pressure reads back with second byte 0 |
| MidiExport.SelectsExactly | crates/riffra-runtime/src/projects.rs:117-147 | something is selected if and only if exactly one selector is given and it names a clip whose end is a tick, or a registered track |
| MidiExport.ExportMidi | crates/riffra-runtime/src/projects.rs:112-155 | refused for both selectors or neither, an unknown clip, an unknown track and an overflowing clip end, each by itself; any other refusal is the encoder's |
| MidiExport.ClipExportMeans | crates/riffra-runtime/src/projects.rs:117-131 | the file of the first clip of an id holds its notes and controls at clip ticks, the right count, and the project's clock over the clip and no further |
| MidiExport.TrackExportMeans | crates/riffra-runtime/src/projects.rs:132-146 | a track's file holds the notes and controls of all its clips, each moved by the start of its clip, the right count, and the project's clock everywhere |
| AppCore.History.Record | crates/riffra-core/src/application/history.rs:12-18 | recording pushes onto the bounded undo stack and clears redo |
| AppCore.AppCore.CommitCandidate | crates/riffra-core/src/app.rs:155-174 | normalise, compare, stamp, save, record, exchange, in that order: the whole state after each outcome |
| AppCore.AppCore.CommitPrepared | crates/riffra-core/src/app.rs:141-153 | a candidate of another sequence is a conflict and changes nothing |
| AppCore.AppCore.RestoreHistoryEntry | crates/riffra-core/src/app.rs:211-253 | taking the entry and putting it back on failure equals the step that changes nothing on failure |
| CommitLaws.StepBringsExactly | crates/riffra-core/src/app.rs:131-253 | what every commit, prepared or merged commit, undo and redo brings about, if and only if: what is offered is committed exactly when valid, different and accepted by storage, the old session on top of undo, which holds forty, and redo empty; an undo or redo restores the top of its stack exactly when there is one, valid and accepted; otherwise the very error, and nothing changes |
| CommitLaws.NextIsLeast | crates/riffra-core/src/app.rs:263-269 | a session is stamped with the least time not before the clock and the candidate and after the previous update, or its limit |
| CommitLaws.PreparingCommits | crates/riffra-core/src/app.rs:47-57 | an edit is prepared exactly when it succeeds and is valid; committed at once it does what the edit would |
| UndoHistory.StepBounded | crates/riffra-core/src/application/history.rs:3-40 | both stacks together never pass the limit of one, so undo and redo never drop an entry |
| UndoHistory.TravelKeepsTimeline | crates/riffra-core/src/app.rs:211-253 | under any mix of undos and redos, failed ones too, the list of undo stack, session and redo stack is unchanged, times erased, and the session is the one at its place |
| UndoHistory.UndoThenRedo | crates/riffra-core/src/app.rs:187-198 | n undos and n redos restore content, timeline and stack heights |
| UndoHistory.CommitCutsTimeline | crates/riffra-core/src/application/history.rs:12-18 | a commit cuts the timeline after the session and appends, dropping the oldest past the limit |
| UndoHistory.UndoTakesBackCommit | crates/riffra-core/src/app.rs:155-198 | undo right after a commit restores the content before it and leaves the commit as the only redo |
| UndoHistory.AllOrNothing | crates/riffra-core/src/app.rs:131-260 | every operation exchanges the session or leaves session, sequence, stacks and storage as they were |
| UndoHistory.CommitTwice | crates/riffra-core/src/app.rs:164-166 | committing again what a commit returned is a no-op |
| UndoHistory.SequenceCountsSaves | crates/riffra-core/src/app.rs:255-260 | over every run the sequence rises by one per accepted save and by nothing else |
| UndoHistory.PreparedOntoItsOwn | crates/riffra-core/src/app.rs:47-57 | a prepared candidate commits only onto the very snapshot it was made from; otherwise conflict and nothing changes |
| UndoHistory.RunSound | crates/riffra-core/src/app.rs:155-174 | after every run the last session storage accepted is the canonical one, and all sessions are normalised |
| UndoHistory.UpdatesRise | crates/riffra-core/src/app.rs:263-269 | accepted update times rise strictly over every run, whatever the clock does, up to the u64 limit |
| EventBuffer.BufferLosesTelemetryOnly | apps/desktop/src-tauri/src/host_connection.rs:345-361 | of the frames to be buffered none but telemetry is lost or moved, at most 512 telemetry frames are held |
| EventBuffer.BufferIsExact | apps/desktop/src-tauri/src/host_connection.rs:345-361 | what is held of any frames: all of up to 512; of more, the first 512 in their places, the last of each telemetry event among them in its latest form, then every later frame that is not telemetry |
| EventBuffer.SmallBufferIsExact | apps/desktop/src-tauri/src/host_connection.rs:348-351 | up to the limit the buffer is what was received |
| EventRouter.ReplaceLast | apps/desktop/src-tauri/src/host_connection.rs:352-360 | the search from the end replaces the last queued frame of the event |
| EventRouter.DesktopEventRouter.Receive | apps/desktop/src-tauri/src/host_connection.rs:328-364 | dropped, emitted, buffered or ignored: the whole new state |
| EventRouter.DesktopEventRouter.Discard | apps/desktop/src-tauri/src/host_connection.rs:366-377 | marks the generation discarded and drops its buffer |
| EventRouter.DesktopEventRouter.Activate | apps/desktop/src-tauri/src/host_connection.rs:379-399 | announces, then emits the buffered frames, dropping older buffers |
| EventRouter.DesktopEventRouter.Invalidate | apps/desktop/src-tauri/src/host_connection.rs:401-417 | announces the disconnection and drops older buffers |
| EventRouter.RunTracks | apps/desktop/src-tauri/src/host_connection.rs:328-417 | in every run each emitted frame is of the generation announced last, and announcements rise |
| EventRouter.RunExact | apps/desktop/src-tauri/src/host_connection.rs:328-417 | what is emitted of a generation, and what waits for an undecided one, is exactly what the calls alone make due |
| EventRouter.AnnouncedExactly | apps/desktop/src-tauri/src/host_connection.rs:379-417 | in every run the shell is told of exactly the connections and disconnections there were, in order |
| EventRouter.OverIsSilent | apps/desktop/src-tauri/src/host_connection.rs:338-342 | no frame of a replaced or discarded generation is emitted later; of one never announced none at all |
| EventRouter.NothingWaits | apps/desktop/src-tauri/src/host_connection.rs:366-399 | once a generation is discarded or activated nothing waits for it any more, whatever arrives later |
| EventRouter.NothingLost | apps/desktop/src-tauri/src/host_connection.rs:345-399 | of the announced generation every frame but telemetry and the two plugin events never forwarded is delivered once, in order of arrival |
| HostConnection.HostConnectionManager.Switch | apps/desktop/src-tauri/src/host_connection.rs:928-966 | a switch is the run of its steps for every answer of the world, and returns whether it succeeded |
| HostConnection.SwitchComesTo | apps/desktop/src-tauri/src/host_connection.rs:928-966 | an undisturbed switch changes nothing while recording; it leaves the old Host active, and the new one shut down, when that cannot be prepared or is refused; otherwise the new Host is active under the next number with its bootstrap and project and the old one shut down |
| HostConnection.HostConnectionManager.InstallPrepared | apps/desktop/src-tauri/src/host_connection.rs:627-678 | swaps and announces the new Host, or discards and shuts it down |
| HostConnection.HostConnectionManager.HandleDisconnect | apps/desktop/src-tauri/src/host_connection.rs:560-625 | accepted only for the attached Host of that generation: new number, closed, reported |
| HostConnection.HostConnectionManager.Shutdown | apps/desktop/src-tauri/src/host_connection.rs:1057-1080 | the Host is shut down and its generation stays |
| HostConnection.HostConnectionManager.Initialize | apps/desktop/src-tauri/src/host_connection.rs:504-523 | the first Host gets generation 1, and failing leaves no Host |
| HostConnection.HostConnectionManager.AllocateGeneration | apps/desktop/src-tauri/src/host_connection.rs:1128-1132 | each number handed out is one more than the last |
| HostSwitching.HostsEndOnce | apps/desktop/src-tauri/src/host_connection.rs:560-678 | over every interleaving a prepared Host ends up active or shut down, never both, and is shut down at most once |
| HostSwitching.RouterFollows | apps/desktop/src-tauri/src/host_connection.rs:504-678 | generations reach the router rising, so frames come in their turn; outside a swap the router lets through the active Host |
| HostSwitching.ActiveHostHeard | apps/desktop/src-tauri/src/host_connection.rs:627-678 | of the active Host the shell has every frame but telemetry and the two plugin events never forwarded, in order |
| HostSwitching.OtherHostsSilent | apps/desktop/src-tauri/src/host_connection.rs:928-966 | after a switch no frame of any other generation handed out is ever emitted |
| HostSwitching.GenerationRises | apps/desktop/src-tauri/src/host_connection.rs:560-625 | the generation rises with every installed Host and accepted disconnection, and with nothing else; numbers are handed out one by one; bootstrap and project are those of the Host installed last or set since |
| HostSwitching.SwitchIsTransactional | apps/desktop/src-tauri/src/host_connection.rs:928-966 | from the start, after any run: a switch ends with the prepared Host active, its bootstrap and project in place and the old Host shut down, or with everything as before and the new Host shut down |
| JobRules.ChangeDevelops | crates/riffra-runtime/src/jobs.rs:182-260 | each operation keeps a job coherent and develops it only in allowed ways |
| JobRules.StepBringsExactly | crates/riffra-runtime/src/jobs.rs:118-330 | what each operation brings about in the whole registry, if and only if: progress the greater of old and clamped new; a failure Failed with its message, or Cancelled when cancelled; a completion with its result, promoted, or Cancelled without; no other job touched |
| JobRules.EveryInterleaving | crates/riffra-runtime/src/jobs.rs:118-390 | from the empty registry, over every interleaving: terminal jobs never change, cancellation is never taken back, progress never falls, a result is there exactly when Completed |
| JobRules.PromotedWhenCompleted | crates/riffra-runtime/src/jobs.rs:212-248 | the output is promoted exactly when the job becomes Completed |
| JobRules.CancelExcludesPromotion | crates/riffra-runtime/src/jobs.rs:291-307 | after an accepted cancel the output is never promoted and the job is Cancelling or Cancelled |
| JobRules.PromotionExcludesCancel | crates/riffra-runtime/src/jobs.rs:212-248 | after a promotion the job and its result stay, promoted once |
| JobRules.AllCancelled | crates/riffra-runtime/src/jobs.rs:309-327 | after cancelling all, one by one amid other operations, no job met is queued or running |
| JobRules.ScanIsSound | crates/riffra-runtime/src/jobs.rs:267-289 | a scan amid other operations lists every job that blocks at its end, and only jobs that blocked at its start |
| Jobs.JobRegistry.CompleteIfNotCancelled | crates/riffra-runtime/src/jobs.rs:212-248 | the new state, and true exactly when the output was promoted |
| Jobs.JobRegistry.CancelAll | crates/riffra-runtime/src/jobs.rs:309-327 | every job not terminal is Cancelling with its flag set, in whatever order they are met |
| Jobs.JobRegistry.RenderDeletionBlockers | crates/riffra-runtime/src/jobs.rs:267-289 | lists exactly the active render jobs and active jobs reading that render, each once |
| Jobs.JobRegistry.SetProgress | crates/riffra-runtime/src/jobs.rs:193-201 | clamps, never lowers, and only while running |
| SessionFiles.LoadIsDetermined | crates/riffra-host/src/storage.rs:101-132 | the loading rule leaves one outcome for every pattern of files |
| SessionFiles.LoadsExactlyWhen | crates/riffra-host/src/storage.rs:101-132 | each outcome of loading has its exact cause in what the active file and the generations seen decode to |
| SessionFiles.CrashKeepsOldOrNew | crates/riffra-host/src/storage.rs:171-214 | a save over a readable file, cut off anywhere, leaves the old session or the new one, decided by the replacement |
| SessionFiles.OldFileKept | crates/riffra-host/src/storage.rs:197-211 | at every point the old file is active, or complete among the generations unless pruned from there |
| SessionFiles.FirstSaveCutOff | crates/riffra-host/src/storage.rs:171-214 | a first save cut off before the replacement leaves loading as it was |
| SessionFiles.UnreadableCutOff | crates/riffra-host/src/storage.rs:171-214 | a save over an unreadable file, cut off anywhere: the new session from the replacement on; before it, exactly when loading still gives what it gave before the save |
| SessionFiles.FreshNameCutOff | crates/riffra-host/src/storage.rs:197-211 | with a new name for the copy and nothing readable copied, such a save cut off before the replacement leaves loading as it was |
| SessionFiles.StaleIsTail | crates/riffra-host/src/storage.rs:324-333 | the names past the twentieth, newest first, are those with twenty newer ones |
| SessionFiles.ErrorsAndFiles | crates/riffra-host/src/storage.rs:167-214 | each error has its exact cause; an error leaves the active file in place if and only if it is not the error of the pruning or the files are equal |
| SessionFiles.GenerationsLeft | crates/riffra-host/src/storage.rs:171-214 | the generations after a save: the copy of the active file, and after success every one but those seen and removable with twenty newer ones seen |
| SessionStore.SessionStore.Save | crates/riffra-host/src/storage.rs:171-214 | the writes are those of a save in order; exactly the disk and the answer for every fault |
| SessionStore.ErrorThatReplaces | crates/riffra-host/src/storage.rs:212-213 | a save that reports an error and has replaced the active file |
| SessionStore.SessionStore.Prune | crates/riffra-host/src/storage.rs:324-333 | exactly the stale ones of the generations seen go; those that cannot be removed, or whose entry cannot be read, stay |
| SessionStore.SessionStore.LoadSaved | crates/riffra-host/src/storage.rs:101-132 | active file if readable, else an error when the generations cannot be listed, else the newest readable one among the entries that can be read, else an error or nothing; no write |
| SessionStore.SessionStore.NewestValidGeneration | crates/riffra-host/src/storage.rs:147-154 | an error exactly when the directory cannot be listed, else the readable generation of greatest name among the entries that can be read, or none of these is readable |
| SessionStore.SessionStore.RestoreGeneration | crates/riffra-host/src/storage.rs:291-309 | a readable generation is saved with the exact disk and outcome of that save, the active file being it for success and for a failed pruning only; a missing or unreadable one changes nothing |
| PersistentCore.OpenedIsKept | crates/riffra-core/src/app.rs:102-110 | a core created on a session loaded from the active file starts sound, with the file holding its session |
| PersistentCore.ReportedIsTheLastReplacement | crates/riffra-core/src/app.rs:155-174 | a save replaces the file exactly when it reaches the replacement, and is reported as a success exactly when the directory can be listed |
| PersistentCore.FileIsCanonicalExactlyWhen | crates/riffra-core/src/app.rs:155-253 | after every run the file loads as the canonical session if and only if the last save that replaced it did not fail in pruning |
| Wav.ReadStructure | crates/riffra-host/src/audio_file.rs:84-179 | the walk ends, accepts only files tiled exactly by header and chunks, and reports what any such chunk list describes |
| WavWriting.ReadAsWritten | crates/riffra-host/src/audio_file.rs:84-179 | bytes are read as a sound if and only if they are written as one, field by field: a header of any size and any chunks, of which the last plain or extensible format gives tag, channels, rate and bits, and the last data its place and whole frames |
| WavWriting.ParseWav | crates/riffra-host/src/audio_file.rs:35-37 | reading a file gives what was written, and nothing exactly for what cannot be written |
| Wav.WavFormat | crates/riffra-host/src/audio_file.rs:47-59 | plain tag, or the subtype's tag when the rest of the subtype is the standard one |
| Wav.Peel | crates/riffra-host/src/audio_file.rs:98-157 | a file has one chunk list: any that tiles it continues the chunks read so far |
| Wav.AcceptedIsInside | crates/riffra-host/src/audio_file.rs:158-178 | the reported bytes are the last data chunk's payload, inside the file, in whole frames |
| StartupRules.AudioSafetyQuiet | crates/riffra-runtime/src/startup.rs:303-355 | a status returned is the last one read, its generation is the one seen last, and nothing was restored or unmuted meanwhile |
| StartupRetries.TimeoutsAreRetried | crates/riffra-runtime/src/startup.rs:303-342 | in a generation that stays, alive and ready, a status request that times out k times and is then answered gives that status for k up to three and nothing above |
| StartupRetries.NewGenerationStartsAgain | crates/riffra-runtime/src/startup.rs:313-318 | a new generation starts the count of retries again |
| StartupRetries.PassComesTo | crates/riffra-runtime/src/startup.rs:312-341 | what one pass of the check comes to, for every answer: a status, another pass with so many retries used, or nothing |
| StartupRules.StartupIsLawful | crates/riffra-runtime/src/startup.rs:148-297 | at most nine restores and nine unmutes, each lawful; every other answer than one without an error after marking the startup failed; no error only after an accepted completion of a restored target |
| StartupRetries.AttemptBegins | crates/riffra-runtime/src/startup.rs:160-196 | an attempt is given up without an answer for a shutdown, no target or no status, and with an error for an unsafe status |
| StartupRetries.AttemptComesTo | crates/riffra-runtime/src/startup.rs:197-286 | how an attempt goes on once its status is safe: again for a changed sidecar or target, success with the status read last, or an error with the last status there is |
| StartupRetries.RestoreComesTo | crates/riffra-runtime/src/startup.rs:357-398 | a restore succeeds exactly when it is answered well and the generation found alive before and after |
| StartupRetries.ReleaseComesTo | crates/riffra-runtime/src/startup.rs:400-447 | a release succeeds with the status read last exactly when the target is the same, the generation found alive before and after, and both requests answered well |
| StartupRetries.TargetsAreRetried | crates/riffra-runtime/src/startup.rs:166-290 | fewer than three changed targets are followed by another attempt; after three startup ends with an error and the last safe status |
| StartupRetries.GenerationsAreRetried | crates/riffra-runtime/src/startup.rs:159-297 | fewer than three replaced generations are followed by another; after three startup gives up |
| StartupReleases.BareReleaseDecides | crates/riffra-runtime/src/startup.rs:246-286 | after a failed restore and a release answered well, the run ends there with an error if and only if the look and the sign of life that follow find the same generation alive; otherwise it goes on or is given up without an answer |
| StartupReleases.SuccessEndsWell | crates/riffra-runtime/src/startup.rs:434-447 | no error is reported only after restore, release, the same generation seen alive, a status and its completion, in a row |
| StartupReleases.RunTells | crates/riffra-runtime/src/startup.rs:148-297 | every event of a run tells what was answered at its place |
| StartupPromise.UnmuteExplained | crates/riffra-runtime/src/startup.rs:400-447 | the events before an unmute: target, status between two looks at one generation, choice of a generation, restore between two looks at it, matching recapture, the same generation alive, each the latest of its kind |
| StartupPromise.PromiseKept | crates/riffra-runtime/src/startup.rs:197-286 | for every unmute of every run: safe status and arrangement belong to the generation the unmute has reached if and only if the look after the safety check found the status's generation, the restore was answered well and the unmute reached the chosen generation |
| StartupPromise.SeenIsReached | crates/riffra-runtime/src/startup.rs:434-443 | an unmute answered well is followed by a look, and when it finds the chosen generation the unmute has reached that one |
| StartupPromise.SuccessKeepsExactlyWhen | crates/riffra-runtime/src/startup.rs:197-245 | when no error is reported the last unmute and the arrangement are in the chosen generation, which is completed; the promise is kept if and only if the look after the safety check found the status's generation |
| StartupRuns.UnmutedElsewhere | crates/riffra-runtime/src/startup.rs:197 | a run without an error whose safe status is of another generation than the one unmuted |
| StartupRuns.UnmutedTooLate | crates/riffra-runtime/src/audio/command_bus.rs:73-93 | a run without an error that unmutes a generation in which no status was read and nothing restored |
| StartupRuns.FailureForgotten | crates/riffra-runtime/src/startup.rs:251-268 | a run without an error that releases the mute after a failed restore |
| StartupRuns.UnmutedAfterFailure | crates/riffra-runtime/src/startup.rs:251-260 | a run with an error that releases the mute after a failed restore |
| Startup.Session.InitializeAudioSafety | crates/riffra-runtime/src/startup.rs:303-342 | the retry loop is the specified check, for every behaviour of the sidecar |
| Startup.Session.ReleaseStartupMuteForTarget | crates/riffra-runtime/src/startup.rs:400-447 | recapture, check, unmute, check and status are asked in the specified order, with each early return |
| Startup.Session.Initialize | crates/riffra-runtime/src/startup.rs:148-297 | the nested retry loops are the specified run, events and answer |
| ScoreReset.MeetIsIntersection | crates/riffra-runtime/src/score_yaml_import.rs:568-580 | a section's range is the intersection of its windows |
| ScoreReset.Boundaries | crates/riffra-runtime/src/score_yaml_import.rs:568-588 | the boundary ticks are the ends of the ranges, or of the section when its windows do not meet |
| ScoreReset.BoundariesAreEdges | crates/riffra-runtime/src/score_yaml_import.rs:568-588 | a tick is a boundary if and only if the ticks in all windows of a section begin or have ended there, or, when it has none, it is an end of the section |
| ScoreReset.ResetEvents | crates/riffra-runtime/src/score_yaml_import.rs:563-656 | at each boundary one reset for each control used, rising, before the performance; fails only for a missing default |
| ScoreReset.NothingCarriesOver | crates/riffra-runtime/src/score_yaml_import.rs:637-655 | at every tick the change of a control begun last is the performance's since the latest boundary, else the reset to its default |
| ScoreReset.RampsCarryOver | crates/riffra-runtime/src/score_yaml_import.rs:612-627 | something begun before a boundary is still under way at it if and only if the performance holds a ramp that spans it |
| ScoreWindows.TrimmedInside | crates/riffra-runtime/src/score/lower.rs:381-399 | a note is kept if and only if it starts in the window of every section it starts in; it keeps its length, or ends with the first such window that ends sooner |
| ScoreWindows.InstantsKept | crates/riffra-runtime/src/score/lower.rs:391-399 | of the controls that last no time exactly those in the windows of their sections are kept, as they were and in order |
| ScoreWindows.RampKept | crates/riffra-runtime/src/score/lower.rs:343-379 | what is left of a ramp is ramps of its control, under way at exactly the ticks the windows allow, and there on the line of the whole ramp |
| ScoreWindows.OffsetMovesAll | crates/riffra-runtime/src/score/lower.rs:1799-1818 | an offset is refused exactly when it moves something out of the score; else everything is moved by it and otherwise unchanged, but that notes end with the score |
| ScoreWindows.SegmentsKeepRamp | crates/riffra-runtime/src/score/lower.rs:2083-2140 | the segments of a ramp cover exactly the ticks the windows allow, have there the ramp's value, and do not overlap |
| ScoreWindows.RampsAtBoundaries | crates/riffra-runtime/src/score/lower.rs:315-414 | for all windows, events and resets, a ramp is under way at a boundary if and only if the timing offset has moved it there; without an offset none is |
| ScoreWindows.RampOverBoundary | crates/riffra-runtime/src/score/lower.rs:1799-1818 | a score with windows, resets and an offset of one tick whose ramp goes on over a boundary |

## Left out

- Message texts: errors carry no text, and orders of errors that differ only in text are not distinguished.
- Ids of notes and events: the parser makes new ones, so they are not part of the model.
- Floating point: tempo, progress and rounding are over real numbers.
- Widths of `usize` and of 64-bit counters: sequence, generation and job numbers do not wrap.
- AppCore.AppCore.CommitCandidate: validation inside the session and the editing operations that build candidates are abstract.
- PersistentCore.FileIsCanonicalExactlyWhen: a project opened from a recovered generation, with an unreadable active file, is not followed; update times at the u64 limit are covered by the session written last only.
- HostConnection.HostConnectionManager.Switch: the class runs an operation without interference; interleavings are those of the steps in `HostSwitching`.
- HostConnection.HostConnectionManager.Initialize: a failed first preparation discards nothing and gives the manager up, as in the source; later behaviour of such a manager is not modelled.
- HostSwitching.RouterFollows: frames of a Host shut down by `Shutdown` keep its generation and may still be emitted, as in the source; agreement of the active project id is not claimed.
- Discovery, sockets, the recording query and lock poisoning are answers of the world.
- Jobs.JobRegistry.RenderDeletionBlockers: worker threads, joining and the render access lock are not modelled.
- The order in which a hash map lists jobs or a directory lists files is left open, and holds for every order.
- SessionStore.SessionStore.Save: free-space arithmetic is one answer; the file system is taken to keep the order of writes and to replace atomically.
- SessionStore.SessionStore.RestoreGeneration: checks on the form of the file name are not modelled; names are numbered by their order.
- The summary-head fast path, recovery candidates, packages and the asset store.
- Wav.ReadStructure: reads from a file whose length changes meanwhile are not modelled.
- StartupRules.StartupIsLawful: the retries of the safety check are bounded by `patience`, because the source goes on for as long as the generation changes; the deadline is the answer of waiting for the next generation.
- ScoreReset.ResetEvents: the alphabetical order of controls within one tick and the 32-bit limit of source orders are not modelled.
- ScoreWindows.RampsAtBoundaries: times are ticks already, exact multiples in the source; ramp values are over real numbers; the rest of score compilation, the resolution of instruments and the session built from a score are not modelled.
- The runtime reconciler is one answer to a restore request.
