# dmux in Dafny

dmux is a device multiplexer: an always-on server holds one SSH PTY per session, fans its output out to the
interfaces attached to it, keeps a bounded scrollback, and negotiates one PTY size per session from the sizes
of its viewers. This project models the server's concurrent core and the code around it, and proves what that
code promises over every run.

Run `dafny verify dfyconfig.toml` (Dafny 4.11).

## How it is laid out

| files | what they model |
|---|---|
| `live_session.dfy`, `session_protocol.dfy` | one live session. `LiveSession.Session` is the struct guarded by `ls.mu`, with one method per critical section. `SessionProtocol` is the transition system of its reader goroutine, its pump and `finalize`, its subscribers, cancels, snapshots and teardown requests; one step is one critical section, one channel operation or one PTY operation. Both use the same functions on the session's fields and channels. |
| `session_invariant.dfy`, `session_reader.dfy`, `session_theorems.dfy`, `session_isolation.dfy`, `session_teardown.dfy`, `session_broadcast.dfy` | what every step keeps, and what follows for every run |
| `session_index.dfy`, `manager_protocol.dfy` | the manager's two indices (class `Manager`), and the transition system over every session ever created: `OpenProject`'s Find and Create, `finalize`, the host-down hook and the `CloseHost` it runs |
| `scrollback.dfy` | the byte buffer, in place on an array |
| `attachments.dfy`, `server.dfy`, `conn_ui.dfy`, `resize.dfy`, `resize_runs.dfy` | clients, the server's actions, one interface's view and pane, the relation every run keeps between client sizes and session sizes, and the runs where more would be too much to ask |
| `overlay.dfy`, `input.dfy`, `router.dfy` | the overlay list, the input automaton, and its handlers updating their fields in place |
| `redraw.dfy` | the coalescing redraw token between pumps and main loop |
| `known_hosts.dfy`, `shell_quote.dfy`, `registry.dfy`, `paths.dfy`, `project_index.dfy`, `projects.dfy` | the durable stores, the text codecs, slash-separated paths and the project listing |
| `basics.dfy`, `identity.dfy`, `strings.dfy` | sequences, the names of hosts, sessions and projects, and Go's order on strings |

Channels. A Go channel is a reference, so channels live in a sequence and are named by their position. A send on
a closed channel and a second close panic in Go; in the model they set `panicked`, and no run reaches that.

Histories. `SessionProtocol.State` carries, beside the real state, the chunks written, how many broadcasts are
complete, and per channel where its subscription started, how it ended, what was missed, what was received and the
snapshot. Steps write them; no step's effect on the real state depends on them.

## What turned out not to hold

- Replay has no gap, but it can repeat: `switchView` subscribes first and takes the snapshot second, so a chunk
  written to scrollback before the snapshot and broadcast after the subscription reaches the pane twice.
  `ReplayIsExactlyOnceIff` says for which schedules it does not; `ReplayCanRepeat` is a run where it does.
- Find is exact only while no creation inserts under a key that is taken: `InverseThroughoutIff` is the exact
  condition over runs, `OverlapLosesASession` a run with two creations (`finalize` deletes the key whoever holds it).
- A pane resize can leave a session larger than a viewer when the interface's view and its client's record differ,
  as after a host drops: `PaneResizeKeepsFitIff` and, as a run from an empty server, `HostDownThenResizeBreaksFit`.
- Viewers of a dropped host are moved to the first running session, which may be one of the same host that is still
  closing; when none runs they stay, as the code intends: `HostDownMovesViewersOffIff`, with the runs `HostDownCanKeepViewers` and
  `HostDownWithNothingRunning`.
- known_hosts pins a host only if its name is one whitespace-free word and its line fits the scanner
  (`FirstContactPinsIff`), and a name of several words is filed under the first of them, over another host's pin
  (`FirstContactSparesPinsIff`, `TwoWordHostTakesAPin`).
- Backspace in an overlay takes back one byte of the query, not one character: `BackspaceUndoesTypingIff`.
- A repo is listed twice, under two spellings, when the configured root is not a clean path: the .git lines go through
  path.Dir, which cleans them, the directory lines do not. `NoDirectoryTwiceIff` and `DoubleSlashListsTwice`.

## Model

| member | source | states |
|---|---|---|
| SessionReader.WrittenIsWhatWasRead | internal/session/manager.go:157-171 | in every run the chunks written to scrollback, with the one still in the reader's hand, are exactly the non-empty reads of the PTY, whole and in order |
| SessionReader.ErrorIsTheLastRead | internal/session/manager.go:157-171 | a read error is the last read of a run, and nothing else ends the reader |
| SessionReader.ClosedOnlyWhenOver | internal/session/manager.go:173-185 | no run closes a session before its PTY dropped or a read from it failed |
| SessionTheorems.ChannelProtocol | internal/session/manager.go:187-215 | in every run no channel is sent on or closed after its close, no queue exceeds 1024, Stopped comes at most once and last and only after the session closed, and a closed channel ends in Stopped exactly when cancel did not close it |
| SessionTheorems.PhaseMoves | internal/session/manager.go:301-315 | a subscription that exists changes only by its own cancel, or by finalize detaching, stopping and closing it in that order |
| SessionTheorems.CancelEndsOne | internal/session/manager.go:306-313 | a cancel unregisters and closes its own channel and touches nothing else; for a subscription that has ended it does nothing |
| SessionTheorems.SubscribeAddsOne | internal/session/manager.go:282-304 | subscribing adds an empty open channel of 1024 places, owed every chunk from the next broadcast on, or on a closed session a closed one holding Stopped |
| SessionTheorems.ClosedIsFinal | internal/session/manager.go:200-203 | in every continuation of a run, a closed channel stays closed and its subscriber's messages and losses in all no longer change |
| SessionTheorems.MissOnlyWhenFull | internal/session/manager.go:327-339 | a subscriber misses a chunk only at its own offer and only with its own 1024-place queue full, and then exactly the chunk being broadcast |
| SessionTheorems.FanOut | internal/session/manager.go:157-171 | in every run a subscriber's data is the chunks read from the PTY while it was subscribed, whole and in order, less its misses; received, queued and missed add up to the chunks offered |
| SessionTheorems.ReplayHasNoGap | internal/tui/tui.go:200-226 | with Subscribe before Snapshot, in every interleaving each chunk read and broadcast is in the snapshot's source, in the stream, or missed by a full queue, and the snapshot is the last cap bytes of what was read up to a point past the subscription's start |
| SessionTheorems.ReplayIsExactlyOnceIff | internal/tui/tui.go:200-226 | with nothing missed, once the snapshot's chunks have been broadcast, the pane was fed the snapshot and then each later chunk once, if and only if at Subscribe the reader was not between its write and its broadcast and nothing was written between Subscribe and Snapshot; before that, if and only if nothing was broadcast to the subscriber yet |
| SessionTheorems.ReplayCanRepeat | internal/tui/tui.go:203-224 | a run in which one byte is fed twice |
| SessionIsolation.BacklogsAreIsolated | internal/session/manager.go:330-339 | two runs that differ only in other subscribers' receives leave a subscriber the same channel, messages, losses and snapshot |
| SessionTeardown.HookFiresIffUnmarkedAtRead | internal/session/manager.go:178-214 | with a hook installed, a finished session has fired it once if and only if it was not marked intentional when its pump read the flag |
| SessionTeardown.MarkedInTimeNeverFires | internal/session/manager.go:217-229 | marked before the read, no run fires the hook |
| SessionTeardown.FinalizeCompletesWhenDrained | internal/session/manager.go:187-215 | from every reachable state with the PTY done, finalize can run to its end, with every channel closed and the session removed, by steps of the pump, a broadcast in progress and consumers receiving |
| SessionTeardown.TeardownIsShort | internal/session/manager.go:175-215 | no schedule takes more pump steps than two for each subscription there ever was, and six |
| SessionTeardown.TeardownIsNeverStuck | internal/session/manager.go:187-215 | with the PTY done and the pump not finished, the pump can step, or a broadcast in progress can and gets nearer its end, or one receive makes room on the channel the pump is to send on |
| SessionBroadcast.UninterruptedBroadcast | internal/session/manager.go:330-339 | the protocol's lock, offers and unlock leave what one pass of the fan-out loop leaves, for every visiting order |
| SessionInvariant.StepKeepsInv | internal/session/manager.go:154-215 | every step of every goroutine keeps the invariant tying locks, subscriber map, pump and channel contents together |
| SessionInvariant.EveryRunKeepsInv | internal/session/manager.go:154-215 | so does every run |
| LiveSession.BroadcastIgnoresOrder | internal/session/manager.go:333-338 | visiting the subscriber map in any order gives each subscriber with room the event and changes nothing else |
| LiveSession.BroadcastMeans | internal/session/manager.go:330-339 | a broadcast appends the event to the queue of each subscriber with room, and does nothing else |
| LiveSession.Session.SubscribeTo | internal/session/manager.go:282-315 | a fresh open channel registered under a new number, or on a closed session a closed channel holding Stopped |
| LiveSession.Session.CancelSub | internal/session/manager.go:306-313 | unregisters and closes once; calling it again changes nothing |
| LiveSession.Session.BroadcastEvent | internal/session/manager.go:330-339 | the loop gives the event to every subscriber with room, keeping subscribers distinct and open |
| LiveSession.Session.BeginFinalize | internal/session/manager.go:187-198 | the first caller closes the session and takes all subscribers; a later one is turned away and changes nothing |
| LiveSession.Session.StopChannel | internal/session/manager.go:200-203 | Stopped is the last event of the channel, which is then closed |
| ManagerProtocol.IndicesAreCoherent | internal/session/manager.go:143-150 | in every run, overlapping creations included, each byKey entry leads to a registered session with that key, and the registered sessions are those finalize has not removed |
| ManagerProtocol.FindIsExactWithoutOverlap | internal/server/server.go:272-297 | when OpenProject calls for one key do not overlap, Find answers exactly the one registered session of a key, whatever finalizations are interleaved |
| ManagerProtocol.InverseThroughoutIff | internal/session/manager.go:143-150 | over every run, overlapping creations included, the two maps are inverse throughout if and only if every creation inserts while Find misses its key |
| ManagerProtocol.OverlapLosesASession | internal/session/manager.go:206-208 | a run of the manager in which two creations for one key insert, the first session ends, and the second is registered, running and not found |
| ManagerProtocol.CascadeIsBounded | internal/session/manager.go:206-215 | in every run each session fires the hook at most once, and firings plus unfinished sessions never exceed the sessions created |
| ManagerProtocol.FiringsUseUpSessions | internal/session/manager.go:212-214 | a firing finishes a session that was unfinished, and only a creation adds an unfinished one, so hooks that close further sessions run out |
| ManagerProtocol.MarkedInTimeNeverFiresHook | internal/session/manager.go:231-252 | across all sessions' interleavings, a session marked by Close or CloseHost before its pump reads the flag never fires the hook |
| ManagerProtocol.HookRunsCloseHost | internal/server/server.go:159-160 | firings and CloseHost calls correspond one to one, each for the host of the dropped session |
| ManagerProtocol.CloseHostReachesEverySession | internal/session/manager.go:232-252 | when such a call has no target left, every session registered on the host when it looked is marked and its PTY done, whatever happened in between |
| ManagerProtocol.EveryRunKeepsInv | internal/session/manager.go:101-252 | the manager-wide invariant holds in every run |
| SessionIndex.InsertKeepsInverseIff | internal/session/manager.go:143-146 | a new session keeps the two maps inverse if and only if Find misses its key just before |
| SessionIndex.FindIsExact | internal/session/manager.go:101-106 | with inverse maps, Find finds a session exactly when one with that key is registered, and there is never a second |
| SessionIndex.ForgetKeepsIndices | internal/session/manager.go:206-208 | removing a session keeps coherence, and keeps the maps inverse |
| SessionIndex.Manager.Create | internal/session/manager.go:109-150 | inserts a running session, or nothing on failure; coherence kept, inverse kept exactly when the key was free |
| SessionIndex.Manager.Remove | internal/session/manager.go:206-208 | the removal keeps both relations between the maps |
| SessionIndex.Manager.CloseHost | internal/session/manager.go:232-252 | returns exactly the host's sessions, marks those, and leaves the others as they were |
| SessionIndex.Manager.Resize | internal/session/manager.go:262-271 | changes the size of a registered session only, and reports an unknown one |
| SessionIndex.Manager.FirstOpen | internal/session/manager.go:73-89 | the running session that was created first, the smaller id breaking ties, or none when none runs |
| Strings.LessIff | internal/session/manager.go:73-89 | the order of ids is that of the first character that differs, a prefix coming first |
| Scrollback.BufferIsTailOfAllWrites | internal/session/scrollback.go:28-37 | after any list of writes the buffer is a tail of everything written, of cap bytes or all there are |
| Scrollback.ChunkingIsInvisible | internal/session/scrollback.go:28-37 | two ways of cutting the same output into writes leave the same buffer |
| Scrollback.RingScrollback.constructor | internal/session/scrollback.go:19-25 | the cap is 256 bytes a line with 64-bit wrap-around, and 256 when that is not positive |
| Scrollback.RingScrollback.Write | internal/session/scrollback.go:28-37 | the array-backed buffer stays a tail of its history, of cap bytes or all there are |
| Scrollback.RingScrollback.DropFront | internal/session/scrollback.go:32-36 | the in-place shift leaves exactly the tail |
| Scrollback.RingScrollback.Snapshot | internal/session/scrollback.go:40-46 | a fresh copy of that tail |
| Scrollback.RingScrollback.Len | internal/session/scrollback.go:49-53 | the smaller of cap and the bytes written |
| Attachments.AttachmentSet.NegotiatedSize | internal/attach/attachments.go:125-157 | for every iteration order: found exactly when an attached client views the session with a size; the designated driver's own size under Driver when it is one of those, else their smallest rows and smallest columns |
| Attachments.DriverFallsBack | internal/attach/attachments.go:129-137 | where the driver cannot be used both policies give the same answer |
| Attachments.FoundIffViewed | internal/attach/attachments.go:125-157 | under either policy a size is found exactly when some valid viewer exists |
| Attachments.SmallestIsGreatestLowerBound | internal/attach/attachments.go:138-156 | the smallest-wins size is the greatest that fits every viewer |
| Attachments.JoiningShrinks | internal/attach/attachments.go:138-156 | a further viewer turns the size into the meet with its own |
| Attachments.AttachmentSet.Attach | internal/attach/attachments.go:53-64 | refuses an empty or known id and changes nothing then; otherwise adds the client; drivers stay attached clients |
| Attachments.AttachmentSet.DetachClient | internal/attach/attachments.go:67-81 | removes the client and exactly its driver designations |
| Attachments.AttachmentSet.Look | internal/attach/attachments.go:84-94 | moves one attached client's view |
| Attachments.AttachmentSet.SetSize | internal/attach/attachments.go:97-107 | records one attached client's size |
| Attachments.AttachmentSet.SetDriver | internal/attach/attachments.go:113-121 | only an attached client can be designated |
| Server.Server.Jump | internal/server/server.go:194-214 | the three refusals change nothing; otherwise the view moves and the session left and the session reached are renegotiated |
| Server.JumpRefusals | internal/server/server.go:194-204 | refused exactly for an unknown session, a stopped one, or an unknown client, and then nothing changes |
| Server.JumpMeans | internal/server/server.go:200-213 | otherwise that client alone moves, and at most the sizes of the session left and the session reached change |
| Server.Server.OnHostDown | internal/server/server.go:159-179 | for every order of the clients: a client that viewed none of the host's sessions is as it was, one that did views the first running session or, when none runs, is as it was; no client's size and no driver changes |
| Server.HostDownMarksSessions | internal/server/server.go:159-162 | the host's sessions and only those are marked, the host is down, and at most the first running session changes size |
| Server.Server.OpenProject | internal/server/server.go:272-297 | switches to the session Find knows, else creates one at the viewer's size and jumps; each outcome reported |
| Server.OpenShowsTheProject | internal/server/server.go:272-297 | with inverse indices, opening a project ends with the client viewing the one session of its (host, root), an existing one or a new one, the indices still inverse and the host of a new one marked up |
| Server.NewSessionIs | internal/server/server.go:278-296 | a session opened for a client has its size, or 24 by 80, is filed under its key, and marks its host up; nothing else changes |
| Server.OpenWithoutCreating | internal/server/server.go:272-290 | finding a session is jumping to it; finding none and not being able to dial changes nothing |
| ConnUI.Interface.SwitchView | internal/tui/tui.go:200-220 | the interface and the record move together, and both sessions are renegotiated with the pane's size recorded |
| ConnUI.SwitchMeans | internal/tui/tui.go:200-237 | the client's record gets the session and the pane's size; other clients, and sessions but for the sizes of the two concerned, stay as they were |
| ConnUI.Interface.OnPaneResize | internal/tui/tui.go:239-248 | records the size and renegotiates the session the interface views |
| ConnUI.PaneResizeMeans | internal/tui/tui.go:239-248 | an unusable size changes nothing; a usable one is recorded, and at most the viewed session's size follows |
| ConnUI.Interface.OnViewStopped | internal/tui/tui.go:287-300 | follows the record if it was moved, else the first running session, else views nothing |
| ConnUI.Interface.Layout | internal/tui/pane.go:85-98 | only a change to a usable size reaches the stores |
| SharedResize.NoSessionOutgrowsAViewer | internal/tui/tui.go:228-254 | under smallest-wins, in every run from an empty server whose pane resizes happen in step, no live session is larger than any valid viewer of it |
| SharedResize.EventKeepsOk | internal/server/server.go:159-222 | each operation keeps that |
| SharedResize.PaneResizeKeepsFitIff | internal/tui/tui.go:239-248 | a pane resize keeps it if and only if the interface and its record are in step or the recorded session already fits |
| SharedResizeRuns.HostDownThenResizeBreaksFit | internal/server/server.go:173-178 | a run from an empty server, through a host drop and a pane resize, that ends with a session larger than its viewer |
| SharedResize.OnlyMovesBreakStep | internal/tui/tui.go:228-254 | an interface in step with its record falls out of step only by a dropped host, by its own jump or opened project until its switch follows, or when its viewed session stops with nothing running |
| SharedResize.SwitchIsInStep | internal/tui/tui.go:200-237 | the interface's own switch puts it in step whatever was the case before |
| SharedResize.ViewStoppedIsInStep | internal/tui/tui.go:287-300 | so does the end of the session it views, once that session is removed |
| SharedResize.JumpIsExact | internal/server/server.go:194-214 | under either policy, after a jump both the session left and the session reached have their negotiated sizes |
| SharedResize.SwitchIsExact | internal/tui/tui.go:200-237 | so do they after switchView, with the client's record at the new view and the pane's size |
| SharedResize.HostDownMovesViewersOffIff | internal/server/server.go:159-179 | no viewer of a dropped host's sessions is left if and only if there was none, or some session runs and the first that does is not on the host; a known host is marked down |
| SharedResizeRuns.HostDownCanKeepViewers | internal/server/server.go:159-190 | a run from an empty server whose host drop leaves the viewer on the dropped host, at a session that is still closing |
| SharedResizeRuns.HostDownWithNothingRunning | internal/server/server.go:173-190 | one that leaves it there because nothing runs any more |
| OverlayList.RefilterEstablishes | internal/tui/overlay.go:329-350 | after a refilter the rows are every entry in order, or the matcher's result for a query, without repeats; the selection stays where it is unless the list got too short, and then is the last row, or 0 without rows |
| OverlayList.MoveStaysInside | internal/tui/overlay.go:352-363 | a move goes exactly its distance or stops at the end of the list |
| OverlayList.Box.RefilterNow | internal/tui/overlay.go:329-350 | the loops compute the specified filtering and clamp |
| OverlayList.Box.MoveBy | internal/tui/overlay.go:352-363 | the two clamps compute the specified move |
| OverlayList.Box.Window | internal/tui/overlay.go:455-466 | the drawn rows are consecutive, exactly as many as fit, and contain the selection |
| InputRouting.KeyReadsBack | internal/tui/render.go:180-221 | a reader of terminal input gets from the bytes written for a key that key, character or control letter, and leaves whatever follows |
| InputRouting.EscapeReadsBackIff | internal/tui/render.go:195-196 | a lone escape is read back as one if and only if what follows does not make a longer key of it |
| InputRouting.EscapingRoundTrip | internal/tui/render.go:12-84 | doubling exactly the keys that encode to the prefix byte writes the concatenation of all encodings and ends where it started, for every prefix |
| InputRouting.PlainGoesThroughIff | internal/tui/render.go:29-47 | without doubling, everything typed gets through if and only if no key encodes to the prefix byte |
| InputRouting.Utf8ReadsBack | internal/tui/render.go:180-187 | the bytes of a typed character read back as that character, whatever follows them |
| InputRouting.WritesItsOwnKey | internal/tui/render.go:29-66 | an input writes nothing, or its own encoding to a non-empty view outside an overlay |
| InputRouting.WritesAreASelection | internal/tui/render.go:12-122 | in any run, detaching and view switches included, what is written is an in-order selection of the encodings of keys typed outside overlays |
| InputRouting.DetachIff | internal/tui/render.go:50-84 | the interface detaches on the prefix followed by d or D and on nothing else |
| InputRouting.PrefixArmsOnce | internal/tui/render.go:29-64 | the prefix arms the next key in pass-through mode, and after that key it is not armed |
| InputRouting.OverlayComesUpIff | internal/tui/render.go:66-83 | which keys bring up an overlay, and that it starts freshly filtered |
| InputRouting.EnterActsOnTheSelected | internal/tui/overlay.go:294-316 | Enter closes the overlay and does what the entry in the selected row does |
| InputRouting.ArrowsMoveOneRow | internal/tui/render.go:103-108 | the arrows move the selection one row and stop at the ends |
| InputRouting.BackspaceUndoesTypingIff | internal/tui/render.go:109-120 | Backspace undoes typing a character into the query if and only if the character is one byte long |
| InputRouting.MouseTypesNothing | internal/tui/render.go:30-35 | a mouse event writes nothing in pass-through mode, and a click may move the view |
| InputRouting.RunKeepsOk | internal/tui/render.go:87-122 | over every run overlay mode has an overlay, its rows are entries and its selection is a row |
| InputRouter.Router.HandleEvent | internal/tui/render.go:12-26 | the handlers, updating mode, overlay and view in place, do what the automaton says, bytes and detach included |
| InputRouter.Router.Select | internal/tui/overlay.go:294-316 | closes the overlay, then acts on the selected entry |
| InputRouter.Router.Start | internal/tui/overlay.go:284-291 | a refiltered overlay owns the input |
| Redraw.NoRepaintIsLost | internal/tui/tui.go:126-144 | in every interleaving, with pumps at rest, the loop in select, no token and no overlay, the screen shows the pane's latest version |
| Redraw.StepLosesNothing | internal/tui/tui.go:175-181 | each step keeps: a newer version has a token, a goroutine about to signal, or a loop on its way to paint, unless an overlay has the screen |
| Redraw.OverlayIsNotPaintedOver | internal/tui/render.go:127-158 | in every interleaving the pane is never painted over an overlay that is up |
| Redraw.RepaintIsWithinReach | internal/tui/render.go:127-158 | from every such state at most five steps of the loop and of a pump about to signal paint the current version |
| KnownHosts.AcceptedIff | internal/remote/dialer.go:236-254 | a key is accepted if and only if the file can be read and pins no other key for the host; a line is appended on first contact alone |
| KnownHosts.AppendPins | internal/remote/dialer.go:279-292 | appending a one-word host to an empty or newline-terminated file changes the parsed map at exactly that host |
| KnownHosts.AppendedEntry | internal/remote/dialer.go:257-292 | appending any host name without a newline files, under its first word, whatever the new line has third |
| KnownHosts.FirstContactPinsIff | internal/remote/dialer.go:246-254 | first contact leaves the host pinned to its key if and only if its name is one word and the line fits the scanner, for every name |
| KnownHosts.OnlyWordsAreChecked | internal/remote/dialer.go:235-255 | a host whose name is not one word is accepted from a readable file with any key |
| KnownHosts.FirstContactSparesPinsIff | internal/remote/dialer.go:257-292 | first contact leaves every other pin alone if and only if none is filed under the first word of the name, or that pin is the third word of the new line |
| KnownHosts.TwoWordHostTakesAPin | internal/remote/dialer.go:235-292 | three handshakes, after which a host with its key unchanged is turned away |
| KnownHosts.KeysNeverChange | internal/remote/dialer.go:235-255 | over any run of handshakes two accepted ones for a one-word host carry the same key, provided no other host's lines name it |
| KnownHosts.OtherPinsNeverChange | internal/remote/dialer.go:235-255 | a pin survives every run, while the file is readable, whose other hosts' lines do not name it |
| KnownHosts.WordsSpareOthers | internal/remote/dialer.go:279-292 | the line of a one-word host names no other host |
| KnownHosts.LinesAre | internal/remote/dialer.go:267-275 | what a line of the file is, a last one without a newline included |
| KnownHosts.FieldsAre | internal/remote/dialer.go:268-271 | what a field of a line is |
| KnownHosts.ReadKnownHosts | internal/remote/dialer.go:257-277 | the scanner loop computes the specified parse, over-long lines included |
| KnownHosts.Log.HostKey | internal/remote/dialer.go:236-292 | accepts a matching or first key, rejects another, writes the file only on first contact, and refuses without changing it when it cannot be opened |
| ShellQuote.QuoteIsTransparent | internal/remote/dialer.go:229-231 | a quoted string adds exactly itself to the word a POSIX shell is reading, wherever it stands |
| ShellQuote.QuoteRoundTrip | internal/project/indexer.go:121-123 | followed by a blank it is one word, the string, and leaves the rest |
| ShellQuote.QuoteIsInjective | internal/project/indexer.go:121-123 | different strings quote differently |
| ShellQuote.CdGetsItsDirectory | internal/remote/dialer.go:161-161 | in the command Open starts, cd's word is the directory, whatever characters it has |
| Registry.ListingIsUnique | internal/registry/file_registry.go:79-84 | a map has one sorted listing, so equal maps write identical files whatever the iteration order |
| Registry.LoadUndoesSave | internal/registry/file_registry.go:44-67 | loading a saved listing gives the saved map |
| Registry.LastOneWins | internal/registry/file_registry.go:60-66 | of several hosts with one id in the file the last is loaded |
| Registry.CrashLeavesOldOrNew | internal/registry/file_registry.go:93-100 | wherever a save stops, the next load sees the old registry or the new one, whole |
| Registry.ChangeTouchesOneHost | internal/registry/file_registry.go:125-204 | each operation keeps hosts filed under their ids and leaves every other host alone |
| Registry.ChangeAtItsHost | internal/registry/file_registry.go:125-204 | the host an operation names is there as given, or gone, or differs in exactly what was set |
| Registry.RefusedIff | internal/registry/file_registry.go:115-204 | refused are exactly adding an id that is there and changing one that is not |
| Registry.RemoveUndoesAdd | internal/registry/file_registry.go:125-150 | removing an added host leaves what there was before |
| Registry.FileRegistry.Apply | internal/registry/file_registry.go:125-204 | memory takes the change unless refused; the disk holds the last successful save even when this one fails |
| Registry.FileRegistry.Save | internal/registry/file_registry.go:79-101 | disk and last save agree at every stopping point |
| Registry.FileRegistry.Load | internal/registry/file_registry.go:44-67 | memory becomes what the disk holds, a missing file giving no hosts; a file that does not parse is an error and changes nothing |
| Registry.FileRegistry.Restart | internal/registry/file_registry.go:42-67 | after a restart the hosts are those of the last successful save |
| Registry.FileRegistry.List | internal/registry/file_registry.go:104-113 | every host once, in id order |
| ProjectIndex.InsideIffComponentPrefix | internal/project/indexer.go:101-108 | a directory is inside a repo exactly when the repo's slash-separated components begin its own |
| ProjectIndex.RepoCoversItsLineIff | internal/project/indexer.go:58-60 | a repo directly below the root covers its own directory line if and only if the root is clean, or itself leads through a directory spelled like the repo |
| ProjectIndex.NoDirectoryTwiceIff | internal/project/indexer.go:57-92 | whatever the two listings below a root hold, no directory is among the results under two spellings, if and only if the root is clean |
| ProjectIndex.UncleanRootListsTwice | internal/project/indexer.go:57-92 | under every other root a listing that gives one repo twice |
| ProjectIndex.DoubleSlashListsTwice | internal/project/indexer.go:39-42 | the root "/h//u" and its repo a: listed as "/h/u/a" and as "/h//u/a" |
| Paths.CleanTwice | internal/project/indexer.go:58-60 | cleaning a path that path.Dir has cleaned changes nothing, so all repo roots are clean |
| Paths.CleanLeadsThere | internal/project/indexer.go:58-60 | a cleaned path leads where the path leads, name by name, from the file system root or from wherever a relative one is followed |
| ProjectIndex.CheckInsideAny | internal/project/indexer.go:101-108 | the loop over the repo map decides insideness in every order |
| ProjectIndex.Combine | internal/project/indexer.go:57-97 | the roots are strictly sorted and are exactly the directories of the .git lines, cleaned, and the listed directories that are none of these and below none of them |
| ProjectIndex.ListingOrderDoesNotMatter | internal/project/indexer.go:72-92 | the same directories in any order give the same roots |
| Projects.RunWorkers | internal/server/server.go:237-252 | in every completion order each slot ends with its own worker's result |
| Projects.Merge | internal/server/server.go:254-268 | the merged list depends on the results alone, not on the completion order |
| Projects.DedupeIsTheFirsts | internal/server/server.go:255-267 | it is exactly the projects at the first position of their (host, root), in host order |
| Projects.DedupeKeys | internal/server/server.go:255-267 | no key comes twice and none is lost |
| Projects.MergedIff | internal/server/server.go:233-268 | a (host, root) is in the merged list if and only if the index of some host that is not down succeeded and has it |

## Left out

- LiveSession.Session.StopChannel: models the blocking send of Stopped at the moment it can proceed, so it requires room in the queue; waiting on a full queue is a step that is not enabled in SessionProtocol, and completion is stated in FinalizeCompletesWhenDrained for subscribers that keep receiving.
- SessionTeardown.FinalizeCompletesWhenDrained: shows a schedule that completes. For the others, TeardownIsShort and TeardownIsNeverStuck bound the pump's steps and show that some step always leads on; fairness of infinite schedules is not formalised.
- SessionIndex.Manager.CloseHost: marks the sessions; closing each PTY is the CloseTarget move of ManagerProtocol, where CloseHostReachesEverySession states both.
- SharedResize.NoSessionOutgrowsAViewer: takes operations one at a time and excludes pane resizes while the interface and its record differ, because there the code breaks the property (PaneResizeKeepsFitIff); two renegotiations interleaved, and Detach, which does not renegotiate, promise no equality of sizes.
- KnownHosts.KeysNeverChange: takes a key type and key that are single words, as SSH names and base64 are, and a file that is empty or newline-terminated; a write that stops half way is not modelled, and line length is counted in characters rather than bytes.
- InputRouting.KeyReadsBack: takes the characters and control letters that the interface's own parser can produce; what a rename submits is not modelled.
- InputRouting.EscapingRoundTrip: takes keys, not mouse events, and a view that stays the same; the view a handler reads between two lock sections cannot change under it.
- Server and interface classes: run to completion one call at a time; the SSH side of Resize, and errors of the file system and of SetStatus, have no effect on what is stated.
- SSH transport, handshakes, keepalives, key generation and authorized_keys (internal/sshd, most of internal/remote): the PTY is a Done latch and a source of chunks, the dial an outcome.
- SHA-256, base64, JSON and the fuzzy matcher: parameters, or assumed to be a function, an injective encoding, a faithful codec and a matcher with distinct in-range results.
- Random session ids: assumed fresh; creation times are parameters.
- Terminal emulation, layout, colours, titles and the sidebar: the pane is the bytes fed to it, or a version number.
- cmd/dmux, configuration and SetHome's project scan commands: flag wiring and thin formatting.
- Trimming of white space from command output lines in Index, and its refusal of an empty root: would only add easy members; directory names are those of the trimmed lines.
