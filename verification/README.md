# Verified model of rtsp-simple-server

A Dafny model of the stateful core of this media server, with proofs of what it keeps over whole runs. Components that the server
changes in place are classes here, and each of their methods is proved to take the object from one modelled state to the next; what
the server is for is proved about those states, over every run.

| files | component |
|---|---|
| `Stream.dfy`, `PathModel.dfy`, `PathInvariants.dfy`, `PathRuns.dfy`, `PathSoundness.dfy`, `PathAccounts.dfy`, `PathLimits.dfy`, `PathLaws.dfy`, `Path.dfy` | a path: the event loop over publishers, readers, static sources, two timers, waiting requests and the on-demand state |
| `PathManager.dfy`, `PathManagerRuns.dfy` | the table of paths under configuration reloads, requests and late closings |
| `CoreModel.dfy`, `CoreRuns.dfy`, `CoreLaws.dfy`, `Core.dfy` | the components of the server and their incremental rebuilding when the configuration changes |
| `HlsModel.dfy`, `HlsRuns.dfy`, `HlsLaws.dfy`, `Muxer.dfy`, `Buffer.dfy` | the HLS muxer: segments, the listed window, the name index, the playlist and the buffer that readers share |
| `Dts.dfy` | the estimation of decoding times |
| `Common.dfy`, `Bytes.dfy` | what several components use |
| `AnnexB.dfy`, `Emulation.dfy`, `Transport.dfy` | Annex B and emulation prevention (Annex B and section 7.4.1 of ITU-T H.264), alone and combined |
| `Adts.dfy` | ADTS (Annex 1.A of ISO/IEC 14496-3) |

A path is modelled one accepted message at a time. `PathModel.Handle` says in closed form what a message does; the class `Paths.Path`
has the handlers as the server has them, with their loops and their mutual recursion, and computes it. `PathModel.Inv` is what holds
between messages. `PathModel.Allowed` is an assumption about messages: set-up never comes from a playing reader, playing only on a
ready path, recording only once and, with `runOnDemand`, only when the path waits for it, announcements not to redirections or idle
static paths, reports of readiness only from a current source. The server does not uphold all of it. `PathLimits.AllowedExactly` says that
exactly these messages keep the invariant and let a ready path keep its stream, and `PathLimits.HarmlessRunsAreSafe` has the
invariant under the weakest assumption there is. The class needs no such assumption: it follows the code over any run, as long as the
code does not panic. `PathModel.Panics` says when it does, for any state that such a run can reach (`PathModel.Sound`), and each of
its cases is a null dereference or a failed assertion of the source's type in a handler.

`PathLaws`, `CoreLaws` and `HlsLaws` say what each operation does in the terms of its users: readers, requests, sources and timers;
the fields of a configuration; bytes of NALUs and times of units.

## Where the code does less than one would expect

Each of these is a theorem that says exactly when, with a run that shows it.

- Announcing to a redirect path panics; announcing to an idle on-demand static path installs a publisher that is later forgotten
  without being closed (`PathLimits.AnnounceIsKeptExactly`, `PathLimits.AnnouncingToARedirectionPanics`,
  `PathLimits.AnnouncingToAnIdleStaticPathIsForgotten`).
- A reader that plays after its path has lost the source meets a nil stream (`PathLimits.PlayIsKeptExactly`,
  `PathLimits.PlayingAfterALossPanics`).
- A static source that gets ready just after its path gave it up leaves the path ready without a source, and
  panicking when the close timer fires (`PathLimits.StaticReadyIsKeptExactly`, `PathLimits.LateReadinessLeavesNoSource`).
- A publisher that records on a `runOnDemand` path nobody has woken leaves it with the close timer armed and no command
  to close, and panicking when the timer fires (`PathLimits.RecordIsKeptExactly`, `PathLimits.RecordingUnwokenLeavesNoCommand`).
- A ready publisher that leaves a path with `runOnDemand` is counted out twice, so the published statistics can go below zero
  (`PathAccounts.PublisherShare`, `PathAccounts.PauseOnDemandCountsTwice`).
- A publisher that is ready when its path ends is never counted out (`PathAccounts.PublisherShareWithoutCommand`,
  `PathLimits.EndingWhileReadyStaysCounted`).
- A path made for a regular expression survives the reload that configures its own name, keeps the old configuration, and when it
  ends the name is left without a path until the next reload (`PathManagerRuns.PlainPathHasItsConfExactly`,
  `PathManagerRuns.PlainNameLosesPathExactly`, `PathManagerRuns.PatternPathOutlivesItsName`,
  `PathManagerRuns.PlainNameIsLeftWithoutPath`).
- A reload can leave an old log level, and metrics that still refer to a closed RTMP server
  (`CoreRuns.ReloadsEqualFreshStartExactly`, `CoreRuns.ChangingTheLevelLeavesTheOld`, `CoreRuns.SwitchingRtmpOffLeavesALink`).
- A reader asleep when the HLS buffer is closed gets an empty read before it is told the end
  (`Buffer.WokenReadersAreToldLater`, `Buffer.CloseMeetsASleeper`).
- Segments are named after whole seconds, and the index loses a segment when a name repeats (`HlsRuns.RotationKeepsIndexExactly`,
  `HlsRuns.TwoRotationsUnderOneName`).
- Emulation prevention starts counting anew after each inserted byte, so four zeros before a byte of at most two stay unprotected,
  and a one after 4, 7, 10, ... zeros is taken for the start of a NALU (`Emulation.AddProtectsExactlyWithoutHoles`,
  `Emulation.FiveZerosStayUnprotected`, `Transport.TransportExactly`, `Transport.GapIsNotCarried`).

## Model

| member | source | states |
|---|---|---|
| `Paths.Path.Serve` | internal/core/path.go:304-458 | the event loop goes through the states of the model for every run of messages on which it does not panic, with no assumption about who sends what, so every request handed to it was answered once or still waits |
| `Paths.Path.Turn` | internal/core/path.go:324-409 | in every sound state, any message that can arrive and does not panic takes the path, updated in place, to the modelled next state, which is sound while the loop goes on; an allowed message keeps the invariant too |
| `Paths.Path.Finish` | internal/core/path.go:411-457 | the code after the loop: timers stopped, everybody who waits told "terminated", playing readers counted out, source closed, the publisher not counted out |
| `Paths.Path.OnDemandStartSource` | internal/core/path.go:470-487 | arms the ready timer, creates the static source or starts the command, and waits for it |
| `Paths.Path.OnDemandCloseSource` | internal/core/path.go:500-525 | one half of the mutual recursion: terminates, and leaves the closed form of an on-demand source that is gone; needs the source or the command that the code asserts or dereferences |
| `Paths.Path.DoPublisherRemove` | internal/core/path.go:612-629 | the other half: terminates because the state is Initial before it is entered again, and leaves the closed form of a removed publisher |
| `Paths.Path.SourceSetReady` | internal/core/path.go:527-555 | makes the stream, answers all waiting describes and setups with it, and becomes Ready or Closing by whether there are readers |
| `Paths.Path.SourceSetNotReady` | internal/core/path.go:557-571 | removes and closes every reader, one by one, with its statistics and its entry in the stream, and closes the stream |
| `Paths.Path.DoReaderRemove` | internal/core/path.go:601-610 | removes one reader, and counts and unforwards it if it was playing |
| `Paths.Path.HandleDescribe` | internal/core/path.go:631-672 | redirect, stream, queue, fallback or error, in that order |
| `Paths.Path.HandlePublisherRemove` | internal/core/path.go:674-679 | removes the publisher only if it is the current one, and answers in any case |
| `Paths.Path.HandlePublisherAnnounce` | internal/core/path.go:681-701 | refuses on static paths with a source and where overriding is off; otherwise closes and removes the old publisher first; excluded are a source that is no publisher and an on-demand source without a command, on which the code panics |
| `Paths.Path.HandlePublisherRecord` | internal/core/path.go:703-724 | counts the assigned publisher in and becomes ready, in whatever on-demand state; refuses any other |
| `Paths.Path.HandlePublisherPause` | internal/core/path.go:726-737 | counts a ready publisher out and gives up the source |
| `Paths.Path.HandleReaderRemove` | internal/core/path.go:739-750 | removes a reader, and schedules closing when it was the last one of a Ready path |
| `Paths.Path.HandleReaderSetupPlay` | internal/core/path.go:752-782 | attaches the reader of a ready path and cancels closing; queues it on an on-demand path; refuses otherwise |
| `Paths.Path.HandleReaderPlay` | internal/core/path.go:784-793 | counts, marks and forwards to the reader; excluded is only a reader, not an RTSP session, on a path whose stream is nil, which the code dereferences |
| `Paths.Path.HandleReaderPause` | internal/core/path.go:795-802 | undoes playing, exactly for a reader that plays |
| `Paths.TellReaders` | internal/core/path.go:429-434 | at the end every reader is told to close once and exactly the playing ones are counted out |
| `Paths.Path.DeliverFrame` | internal/core/stream.go:81-87 | a frame reaches exactly the playing readers that are not RTSP sessions, each once |
| `PathLaws.DescribeLaw` | internal/core/path.go:631-672 | for every sound state: redirected, or answered with the live stream; on a path with runOnDemand or a static source on demand, queued behind the others, and the source or command started if the state is Initial; otherwise fallback or error, and nothing else |
| `PathLaws.SetupLaw` | internal/core/path.go:752-782 | on a ready path the reader is attached and the path kept from closing; on an on-demand path that is not ready it is queued and the source or command started; otherwise refused, and nothing else |
| `PathLaws.AnnounceLaw` | internal/core/path.go:681-701 | a path with a static source refuses, one that forbids overriding keeps its publisher; otherwise the new publisher is assigned, the old one having been closed, counted out and removed with all readers |
| `PathLaws.RecordLaw` | internal/core/path.go:703-724 | the assigned publisher is counted in; a new stream is there; everybody who waited gets it in order, waiting readers are attached, others keep their entry, and the path is Ready or Closing by whether it has readers; any other publisher is refused and nothing changes |
| `PathLaws.StaticReadyLaw` | internal/core/path.go:350-352 | the same for a static source, with no publisher counted |
| `PathLaws.StaticNotReadyLaw` | internal/core/path.go:354-367 | the current source takes an on-demand path down, closed once; elsewhere it stays and the stream and readers go; another source is only answered |
| `PathLaws.PublisherPauseLaw` | internal/core/path.go:726-737 | a ready current publisher is counted out (twice when it takes an on-demand path down, and it is then closed and gone); stream and readers go; anybody else is only answered |
| `PathLaws.PublisherRemoveLaw` | internal/core/path.go:674-679 | the current publisher, its stream and all readers go, with the statistics; anybody else is only answered |
| `PathLaws.ReaderRemoveLaw` | internal/core/path.go:739-750 | the reader is gone and all others keep their entry; the count falls by one iff it played; the forwarding set loses exactly it; a Ready on-demand path that has lost its only reader is Closing with the timer armed |
| `PathLaws.PlayLaw` | internal/core/path.go:784-793 | the reader plays, is counted, and is forwarded to iff it is no RTSP session (or was already); nobody else is affected |
| `PathLaws.PauseLaw` | internal/core/path.go:795-802 | a playing reader stays attached, is counted out and no longer forwarded to; any other is only answered |
| `PathLaws.ReadyTimerLaw` | internal/core/path.go:326-341 | everybody who waits is told of the timeout, in order; the source or command ends; the state is Initial |
| `PathLaws.CloseTimerLaw` | internal/core/path.go:343-348 | the source or command ends, with its readers; the state is Initial; no request is touched |
| `PathLaws.StartLaw` | internal/core/path.go:307-311 | a redirection, a static source that is not on demand, or nothing; and all else empty |
| `PathLaws.LeaveLaw` | internal/core/path.go:325-409 | which messages end the loop: the end of the context, and on a path of a regular expression a timer or a message that leaves no source |
| `PathLaws.EndLaw` | internal/core/path.go:411-455 | everybody who waits is told, every reader told to close and the playing ones counted out, the source closed, and nothing left armed, running or forwarded to |
| `PathLaws.AnybodyMaySendAnything` | internal/core/path.go:324-409 | only timers and static sources are assumed to be bound to the state of the path |
| `Streams.Stream.OnFrame` | internal/core/stream.go:38-49 | one frame goes to each reader of the map exactly once and to nobody else |
| `PathInvariants.HandleKeepsInv` | internal/core/path.go:325-409 | every allowed message keeps the invariant that ties source, readiness, stream, readers, timers, queues, command and reader statistics together (exactly when: `PathLimits.KeptExactlyWhenHarmless`) |
| `PathSoundness.HandleKeepsSound` | internal/core/path.go:324-409 | whatever message arrives, if it does not panic: a ready source and its stream come together, only RTSP sessions play without one, Ready and Closing imply ready, nobody waits to be set up on a ready path |
| `PathInvariants.RemovePublisherKeepsInv` | internal/core/path.go:500-525 | the mutual recursion ends in a state that satisfies the invariant |
| `PathInvariants.EmptiedOneByOne` | internal/core/path.go:563-566 | removing and closing the readers one at a time amounts to emptying the audience at once, statistics included |
| `PathRuns.RunsAreSafe` | internal/core/path.go:304-458 | in every state reached by allowed messages the loop runs with its invariant intact or has ended with timers and command stopped, nobody counted and nobody forwarded to (for the weakest assumption: `PathLimits.HarmlessRunsAreSafe`) |
| `PathSoundness.RunsAreSound` | internal/core/path.go:304-458 | so it is in every state that any run without a panic reaches |
| `PathSoundness.PossibleIsAlive` | internal/core/path.go:324-409 | runs of allowed messages never panic |
| `PathRuns.OnDemandStateIsDetermined` | internal/core/path.go:470-571 | over every run of an on-demand path: ready iff a stream exists iff Ready or Closing; Ready iff ready with readers; Closing iff ready without; each timer armed iff its state; readers only when ready; requests wait only in WaitingReady with the ready timer armed |
| `PathRuns.ReadersAreCounted` | internal/core/path.go:601-610 | over every run the share of CountReaders is the number of playing readers, zero at the end, and the stream forwards to exactly the playing non-RTSP readers |
| `PathRuns.HandleEnters` | internal/core/path.go:631-672 | the only entries a message can make in the books: answered at once, answered after everybody who waited, or queued |
| `PathRuns.NextConserves` | internal/core/path.go:325-457 | one message adds its own request to what is answered or waits, and nothing else |
| `PathRuns.RequestsAreConserved` | internal/core/path.go:304-458 | over every run, with no assumption about its messages, the requests made are, as a multiset, those answered plus those waiting; after the end every request was answered exactly once |
| `PathAccounts.PublisherShare` | internal/core/path.go:612-617 | over every run the share of CountPublishers is one if a publisher is ready, less one for every teardown that counts twice |
| `PathAccounts.PublisherShareWithoutCommand` | internal/core/path.go:681-737 | on a publisher path without runOnDemand the share is one iff the source is ready, at every time and also after the loop has ended (source.go:9-12 makes the last branch of path.go:445-455 unreachable) |
| `PathAccounts.PauseOnDemandCountsTwice` | internal/core/path.go:726-737 | a run of describe, announce, record and pause on a runOnDemand path that ends with a share of minus one |
| `PathAccounts.RemovePublisherOutcome` | internal/core/path.go:612-629 | removing the publisher leaves no source, not ready, no stream, no readers; a ready on-demand path is back in Initial with its command stopped |
| `PathAccounts.SourcesAreClosedOnce` | internal/core/path.go:573-599 | over every run each static source ever created is closed exactly once, the current one excepted, and at the end all are closed |
| `PathAccounts.ReadersLeaveKnowingly` | internal/core/path.go:557-571 | a message tells exactly those readers to close that it drops without their asking |
| `PathAccounts.AnswersNameTheLiveStream` | internal/core/path.go:527-545 | whoever is answered with a stream is answered with the stream that is live after the message |
| `PathLimits.KeptExactlyWhenHarmless` | internal/core/path.go:324-409 | of all messages that can arrive, exactly the harmless ones neither panic nor break the invariant, which is about readers, timers and requests: the allowed ones, and a second readiness while nobody is forwarded to |
| `PathLimits.AllowedExactly` | internal/core/path.go:324-409 | exactly the allowed messages neither panic nor break the invariant, and let a ready path keep its stream |
| `PathLimits.ShareIsKeptExactly` | internal/core/path.go:612-617 | one message leaves the share of CountPublishers one per ready publisher iff it neither counts a teardown twice nor records a publisher that is ready already |
| `PathLimits.HarmlessRunsAreSafe` | internal/core/path.go:304-458 | the invariant holds over all runs of harmless messages, the weakest assumption under which it does |
| `PathLimits.AnnounceIsKeptExactly` | internal/core/path.go:681-701 | an announcement neither panics nor breaks the invariant iff it does not meet a redirection without disableOverride nor an idle static path |
| `PathLimits.SetupIsKeptExactly` | internal/core/path.go:752-782 | a set-up keeps the invariant iff the reader is not playing |
| `PathLimits.PlayIsKeptExactly` | internal/core/path.go:784-793 | a play neither panics nor breaks the invariant iff the path is ready, the reader is not playing yet and, when the path is closing, was set up |
| `PathLimits.RecordIsKeptExactly` | internal/core/path.go:703-724 | a recording by the assigned publisher keeps the invariant iff, on a path that was not ready, a path with runOnDemand waited for it, and on a ready one, nobody is forwarded to (it then counts the publisher again: `PathLimits.ShareIsKeptExactly`); with runOnDemand but not woken the path becomes ready without the command that line 517 closes later |
| `PathLimits.StaticReadyIsKeptExactly` | internal/core/path.go:350-352 | a report of readiness keeps the invariant iff the path has a source and was not ready (or was ready unheard) |
| `PathLimits.StaticNotReadyIsKeptExactly` | internal/core/path.go:354-367 | a report of lost readiness neither panics nor breaks the invariant iff it is not from a current source that never was ready |
| `PathLimits.AnnouncingToARedirectionPanics` | internal/core/path.go:693-695 | at the start of any redirect path without disableOverride, any announcement meets the type assertion of line 694 with a source that is no publisher |
| `PathLimits.AnnouncingToAnIdleStaticPathIsForgotten` | internal/core/path.go:681-701 | at the start of any on-demand static path, an announcement installs a publisher, which the next describe replaces without closing it |
| `PathLimits.LateReadinessLeavesNoSource` | internal/core/path.go:350-352 | a run on which a source gets ready just after its path gave it up: the path is ready without a source, and panics when the close timer fires |
| `PathLimits.PlayingAfterALossPanics` | internal/core/path.go:784-793 | a run of announce, record, set-up and pause after which a play dereferences a nil stream |
| `PathLimits.RecordingUnwokenLeavesNoCommand` | internal/core/path.go:703-724 | an announcement and a recording on a runOnDemand path that nobody has woken: the close timer is armed, there is no command, and the path panics when the timer fires |
| `PathLimits.EndingWhileReadyStaysCounted` | internal/core/path.go:445-455 | a run of announce, record and end after which the share is still one |
| `PathManagers.PathManager.constructor` | internal/core/path_manager.go:52-102 | a new manager holds the given configurations and one path for each plain name |
| `PathManagers.PathManager.ConfReload` | internal/core/path_manager.go:120-156 | the reload loops, run over the tables in any order, compute the merged configurations, drop and close the paths left without theirs, and make the missing ones |
| `PathManagers.PathManager.RemoveStalePaths` | internal/core/path_manager.go:144-149 | drops and closes exactly the paths whose configuration object is gone or replaced |
| `PathManagers.PathManager.AddNewPaths` | internal/core/path_manager.go:152-156 | makes exactly the missing paths of plain names |
| `PathManagers.PathManager.HandlePathClose` | internal/core/path_manager.go:158-163 | closes a path only if it is the very object in the table |
| `PathManagers.PathManager.HandleRequest` | internal/core/path_manager.go:170-249 | find configuration, authenticate, find or create the path, hand it out; what is refused changes no configuration and no path, and no path is ever replaced |
| `PathManagers.PathManager.FindPathConf` | internal/core/path_manager.go:293-312 | an invalid name is refused; the plain name has precedence; otherwise some pattern that matches; otherwise nothing |
| `PathManagerRuns.RunsKeepInv` | internal/core/path_manager.go:114-275 | across any interleaving of reloads, requests and (late) closings: each path is under its own name and bound by identity to the current configuration of its confName, and the open path objects are exactly the values of the table |
| `PathManagerRuns.ReloadAdoptsTable` | internal/core/path_manager.go:121-140 | after a reload the table equals the new one up to Equal, and unchanged entries keep their object |
| `PathManagerRuns.ReloadKeepsExactlyUnchanged` | internal/core/path_manager.go:144-149 | a reload keeps a path object iff its configuration is still there unchanged; all others are closed |
| `PathManagerRuns.ReloadServesPlainNames` | internal/core/path_manager.go:152-156 | after a reload every plain name has an open path |
| `PathManagerRuns.StartServesPlainNames` | internal/core/path_manager.go:88-92 | after the start every plain name has a path of its own |
| `PathManagerRuns.PlainNameLosesPathExactly` | internal/core/path_manager.go:158-163 | between reloads a plain name loses its path iff that path had been made for a pattern and ends by itself |
| `PathManagerRuns.LateCloseChangesNothing` | internal/core/path_manager.go:159-161 | a closing message of a replaced path changes nothing |
| `PathManagerRuns.RequestsMeetOpenPaths` | internal/core/path_manager.go:189-193 | a request that is let through is handed an open path of that name bound to a current configuration; an existing path is reused |
| `PathManagerRuns.RefusedRequestsChangeNothing` | internal/core/path_manager.go:170-193 | a request that is not authorized, or finds no configuration, or finds the path there, changes no configuration and no path |
| `PathManagerRuns.RequestsAddOnePath` | internal/core/path_manager.go:189-193 | a request let through for a name without a path adds this one path, bound to what was found, and nothing else |
| `PathManagerRuns.ClosingRemovesOnePath` | internal/core/path_manager.go:158-163 | a path of the table that ends is taken out and closed, and nothing else changes |
| `PathManagerRuns.ReloadHasPathsExactly` | internal/core/path_manager.go:120-156 | after a reload a name has a path iff it kept one or is a plain name; new paths have the configuration of their name; every entry is the old object iff unchanged and else the new one |
| `PathManagerRuns.StartHasPathsExactly` | internal/core/path_manager.go:88-92 | at the start exactly the plain names have paths, each with its configuration |
| `PathManagerRuns.PlainPathHasItsConfExactly` | internal/core/path_manager.go:144-156 | after a reload the path of a plain name has its own configuration iff no path made for another configuration survives under that name |
| `PathManagerRuns.PatternPathOutlivesItsName` | internal/core/path_manager.go:120-156 | a run on which it does not: a path made for a pattern keeps the pattern after its own name is configured |
| `PathManagerRuns.PlainNameIsLeftWithoutPath` | internal/core/path_manager.go:158-163 | that run continued: when the path ends, its name is configured and has none |
| `Cores.Core.constructor` | internal/core/core.go:47-102 | a new core holds what creating the resources of its configuration gives; if one fails, those that did start are closed again and nothing is open |
| `Cores.Core.CreatePathManager` | internal/core/core.go:221-233 | a new path manager has the parameters and paths of the configuration, knows the metrics, and registers with them |
| `Cores.Core.CreateResources` | internal/core/core.go:175-362 | fills the missing components in order, up to the first that fails |
| `Cores.Core.CloseResources` | internal/core/core.go:364-540 | closes the flagged components in order; what stays is told about what closed, and handed the new paths and configuration |
| `Cores.Core.CloseServers` | internal/core/core.go:497-520 | the order of closing makes the metrics and the path manager forget exactly what closed, except for the RTMP server |
| `Cores.Core.ReloadConf` | internal/core/core.go:542-547 | close, adopt, create |
| `Cores.Core.Serve` | internal/core/core.go:135-167 | the main loop: it stops at the first failed reload, and whatever happened nothing is open in the end |
| `CoreRuns.CreatedFits` | internal/core/core.go:175-362 | creating what is missing makes the components complete and right if nothing fails; in any case what was opened is held |
| `CoreLaws.FirstFailureStopsCreation` | internal/core/core.go:175-362 | creation fails iff a component that is needed fails to start; those needed before the first failure are there, those after it are not |
| `CoreRuns.KeptFits` | internal/core/core.go:364-477 | whatever the close flags spare was built as the new configuration says and refers only to components that stay (readBufferSize of the RTSP servers by way of the path manager) |
| `CoreRuns.RunsFit` | internal/core/core.go:175-547 | after any sequence of successful reloads every wanted component exists, has the parameters of the last configuration, and refers to the live others |
| `CoreLaws.RunsFollowTheConfiguration` | internal/core/core.go:175-547 | after any sequence of successful reloads the components are exactly those that the fields of the last configuration ask for (the RTSP servers by rtspDisable and encryption), each parameter is the field it should be, and the links lead to the live others |
| `CoreLaws.FreshStartFollowsTheConfiguration` | internal/core/core.go:175-362 | the same after a fresh start, log level and RTMP link included |
| `CoreRuns.ReloadsMatchFreshStart` | internal/core/core.go:175-547 | the components, their parameters and their links then equal those of a fresh start with the last configuration, log level and the metrics' link to RTMP aside |
| `CoreRuns.ReloadsEqualFreshStartExactly` | internal/core/core.go:369-375 | the log level agrees too iff it equals that of the configuration under which the logger was last made; the link agrees iff RTMP was not switched off under metrics that stayed |
| `CoreRuns.StaleIsDangling` | internal/core/rtmp_server.go:214-216 | the metrics' link to RTMP is dangling iff RTMP is disabled and the link is set, since a closing RTMP server registers itself again |
| `CoreRuns.SwitchingRtmpOffLeavesALink` | internal/core/core.go:449-463 | from any configuration with metrics and RTMP, one reload that switches RTMP off leaves the dangling link |
| `CoreRuns.ChangingTheLevelLeavesTheOld` | internal/core/core.go:369-375 | from any configuration, one reload that changes the log level leaves the old one |
| `CoreRuns.ReloadingTheSameChangesNothing` | internal/core/core.go:364-547 | reloading the configuration at hand keeps every component |
| `CoreLaws.LevelAndPathsCloseNothing` | internal/core/core.go:364-486 | a new log level or new paths close no component |
| `CoreLaws.LogTargetClosesTheLogger` | internal/core/core.go:370-375 | new log destinations or file close the logger alone |
| `CoreLaws.PProfSettingsCloseItAlone` | internal/core/core.go:384-389 | new profiler settings close the profiler alone |
| `CoreLaws.ApiSettingsCloseItAlone` | internal/core/core.go:477-486 | new API settings close the API alone |
| `CoreLaws.HlsSettingsCloseItAlone` | internal/core/core.go:464-475 | new HLS settings close the HLS server alone |
| `CoreLaws.RtmpSettingsCloseItAndTheApi` | internal/core/core.go:449-462 | new RTMP settings close the RTMP server and the API |
| `CoreLaws.RtspTransportClosesItAndTheApi` | internal/core/core.go:404-427 | new ports and addresses of RTP close the RTSP server and the API |
| `CoreLaws.RtspsSettingsCloseItAndTheApi` | internal/core/core.go:429-447 | a new RTSPS address, certificate or key closes the RTSPS server and the API |
| `CoreLaws.RtspSettingsCloseBothAndTheApi` | internal/core/core.go:404-447 | new encryption, authentication or protocols close both RTSP servers and the API |
| `CoreLaws.ConnectCommandSparesHls` | internal/core/core.go:404-462 | a new command on connection spares logger, metrics, profiler, path manager and HLS server |
| `CoreLaws.LoggerAndPProfGoAlone` | internal/core/core.go:370-389 | whatever else changes, logger, metrics and profiler close iff their own settings change |
| `CoreLaws.SparedComponentsStay` | internal/core/core.go:488-535 | a component that is not closed is the same object after the reload |
| `CoreRuns.NothingLeaks` | internal/core/core.go:145-172 | whatever reloads succeeded or failed, the final closing leaves no component open |
| `Hls.TSFile.constructor` | internal/hls/tsfile.go:26-61 | a new segment is open, empty and begins with the tables |
| `Hls.TSFile.WriteH264` | internal/hls/tsfile.go:79-126 | stamps the presentation range on video-paced segments only, and appends the unit to what readers get |
| `Hls.TSFile.WriteAAC` | internal/hls/tsfile.go:128-181 | stamps the range on audio-paced segments only, even when the ADTS header then cannot be made |
| `Hls.RenderedMeans` | internal/hls/tsfile.go:56-61 | what readers get of a segment begins with the tables and has one packet for each unit, in order |
| `Hls.Muxer.constructor` | internal/hls/muxer.go:46-80 | one open segment, queued and indexed, all of it new |
| `Hls.Muxer.Close` | internal/hls/muxer.go:83-85 | closes the current segment and truncates nothing |
| `Hls.Muxer.Rotate` | internal/hls/muxer.go:107-123 | closes the current segment, opens the next, evicts the oldest beyond the limit; no other segment is touched |
| `Hls.Muxer.WriteH264` | internal/hls/muxer.go:88-136 | groups before the first IDR are skipped; an IDR rotates a segment that is long enough; the group goes to the current segment with its estimated decoding time; no file is forgotten and what was the current one only grows |
| `Hls.Muxer.WriteAAC` | internal/hls/muxer.go:139-184 | audio alone rotates after enough units and time; with video it waits for the first segment to start; units get their own presentation times; the result says exactly whether a write failed; no file is forgotten and what was the current one only grows |
| `HlsLaws.VideoLaw` | internal/hls/muxer.go:88-136 | a group is taken iff the segment has started or some NALU has type 5 in its lower five bits; it rotates iff there is such a NALU, the segment has started and spans the configured duration; it becomes the last unit, two seconds later, flagged iff it holds such a NALU; all other segments, the window and the index are given |
| `HlsLaws.AudioLaw` | internal/hls/muxer.go:139-184 | audio alone rotates iff a hundred units were counted, the segment has started and spans the configured duration; all units are taken in order at their times, or none with a configuration that the header cannot express; all other segments, the window and the index are given |
| `HlsLaws.AuPTSMeans` | internal/hls/muxer.go:169-169 | unit k is presented k thousand samples after the first, in whole nanoseconds rounded down, and two seconds late |
| `HlsLaws.AudioUnitsMean` | internal/hls/muxer.go:168-181 | the account of accepted audio has exactly the access units, in order, at these times |
| `HlsLaws.CeilSecondsMeans` | internal/hls/muxer.go:200-200 | the configured duration is rounded up to whole seconds |
| `HlsLaws.RoundSecondsMeans` | internal/hls/muxer.go:204-204 | listed durations are rounded to the nearest second, up from the middle |
| `Hls.Muxer.TargetDuration` | internal/hls/muxer.go:199-211 | the least number of whole seconds that covers the configured duration and every listed duration rounded to the nearest second |
| `Hls.Muxer.GetPlaylist` | internal/hls/muxer.go:187-222 | lists the queue; entry k is segment number mediaSequence + k of all segments ever made, and its rounded duration is at most the target |
| `Hls.Muxer.GetTSFile` | internal/hls/muxer.go:225-237 | a reader at the start of the indexed segment, as `Hls.Watch` takes it, or nothing |
| `Hls.Watch` | internal/hls/muxer.go:88-237 | a reader once obtained is never cut short: across any sequence of writes, rotations, evictions, closing and reads, its output only grows and always is a prefix of the rendering of its segment |
| `Hls.WatchFromTheStart` | internal/hls/muxer.go:46-237 | so it is for whoever makes a muxer and takes a reader of its first segment |
| `Hls.SegmentsOnlyGrow` | internal/hls/muxer.go:118-122 | over every run and for every segment, evicted or not, what readers can get at some time is a prefix of what they can get later |
| `HlsRuns.SegmentsPartitionTheStream` | internal/hls/muxer.go:88-184 | over every run the segments ever made, evicted ones included, hold exactly the accepted units, in order, each once, as an independent account of what is accepted says |
| `HlsRuns.FinishedSegmentsKeepTheirPromises` | internal/hls/muxer.go:107-161 | every rotated-out segment is closed, starts with an IDR group (video), spans at least the configured duration, and (audio alone) holds at least 100 units |
| `HlsLaws.SegmentsBeginWithIDR` | internal/hls/muxer.go:89-123 | over every run, every segment with data begins with a group of which some NALU is an IDR slice |
| `HlsLaws.RunsKeepWindow` | internal/hls/muxer.go:117-122 | over every run as many segments are listed as there are, up to the configured number and at least one |
| `HlsRuns.SegmentsAreDecodedInOrder` | internal/hls/muxer.go:125-130 | if the accepted video groups come as rising anchors with B frames between them, then over all segments decoding times strictly increase and never exceed presentation times |
| `HlsRuns.RangeIsExact` | internal/hls/tsfile.go:80-93 | the recorded range is the least and greatest presentation time of the pacing track |
| `HlsRuns.SequenceNumbersNeverChange` | internal/hls/muxer.go:118-122 | a rotated-out segment never changes again and keeps its media sequence number, whatever is evicted in between; no segment ever loses a unit |
| `HlsRuns.RotationKeepsIndexExactly` | internal/hls/muxer.go:116-122 | rotation keeps the name index exact iff the new name is not the name of a listed segment (names are whole seconds, tsfile.go:29) |
| `HlsRuns.TwoRotationsUnderOneName` | internal/hls/muxer.go:114-117 | a run that rotates twice under one name, after which the index leads from the name of a listed segment to another one |
| `HlsRuns.DistinctNamesKeepIndex` | internal/hls/muxer.go:107-123 | with names that never repeat, the index finds exactly the queued segments, each under its name, after every write |
| `Buffer.MultiAccessBuffer.Write` | internal/hls/multiaccessbuffer.go:55-62 | appends, and accepts everything |
| `Buffer.MultiAccessBuffer.NewReader` | internal/hls/multiaccessbuffer.go:64-68 | a reader that stands at the beginning |
| `Buffer.Reader.Read` | internal/hls/multiaccessbuffer.go:14-31 | EOF iff closed and all returned; sleeps iff open and all returned; otherwise the next bytes, as many as are there and fit: the outcome of the interleaving model |
| `Buffer.Reader.Resume` | internal/hls/multiaccessbuffer.go:22-30 | a woken reader goes on without looking for the end again: it may get no bytes, but never EOF |
| `Buffer.OutputIsPrefix` | internal/hls/multiaccessbuffer.go:14-62 | for any interleaving of writes, closing and reads each reader's output is a prefix of all bytes written |
| `Buffer.ReadsTellTheTruth` | internal/hls/multiaccessbuffer.go:14-31 | for any interleaving EOF comes iff the buffer is closed and the output is everything written so far |
| `Buffer.WokenReadersAreToldLater` | internal/hls/multiaccessbuffer.go:22-30 | a woken reader with room gets no bytes iff the buffer was closed with nothing new, and its next read is then told EOF |
| `Buffer.CloseMeetsASleeper` | internal/hls/multiaccessbuffer.go:22-30 | a run of a read that sleeps and a closing that wakes it to no bytes |
| `Dts.DTSEstimator.Feed` | internal/h264/dtsestimator.go:23-58 | estimates one decoding time and moves the three remembered times, as the model does |
| `Dts.EstimateByFrames` | internal/h264/dtsestimator.go:23-58 | the decoding time of each frame of a stream in terms of the presentation times before it, B frames included |
| `Dts.DecodingTimesAreOrdered` | internal/h264/dtsestimator.go:23-58 | for every stream of rising anchors with B frames between them, more than a millisecond apart and from two seconds on, decoding times strictly increase and never exceed presentation times (so CTime at internal/core/rtmp_conn.go:332-338 is never negative) |
| `Dts.IncreasingFramesExactly` | internal/h264/dtsestimator.go:35-48 | without B frames decoding times never exceed presentation times iff each frame is at least a millisecond after the one before the previous |
| `AnnexB.DecodeAnnexB` | internal/h264/annexb.go:8-67 | the index loop computes the scan, errors included |
| `AnnexB.MissingDelimiterExactly` | internal/h264/annexb.go:11-29 | a stream is refused for its beginning iff it starts with neither delimiter |
| `AnnexB.EncodeAnnexB` | internal/h264/annexb.go:70-79 | the loop puts a four-byte delimiter before each NALU |
| `AnnexB.DecoderReadsExactlySpelledStreams` | internal/h264/annexb.go:8-67 | the decoder returns a list of NALUs iff the bytes spell that list: a grammar of opening delimiter, good NALUs and delimiters of two or three zeros |
| `AnnexB.RoundTripExactlyForGoodNalus` | internal/h264/annexb.go:36-79 | decoding what was encoded gives the list back iff it is not empty and every NALU is good: not empty, no 1 after exactly two or three zeros, no trailing zero but in the last |
| `AnnexB.ReencodingKeepsNalus` | internal/h264/annexb.go:8-79 | for every accepted byte string, encoding and decoding again gives the same good NALUs |
| `Emulation.AntiCompetitionAdd` | internal/h264/anticompetition.go:4-39 | the in-place copying loop computes the protected form |
| `Emulation.AntiCompetitionRemove` | internal/h264/anticompetition.go:42-90 | the in-place copying loop, with a byte held back, computes the plain form |
| `Emulation.RemoveUndoesAdd` | internal/h264/anticompetition.go:4-90 | removing undoes adding, for every byte string |
| `Emulation.ThreeIsInserted` | internal/h264/anticompetition.go:23-30 | the byte put in is a three, before bytes of at most three that follow two zeros |
| `Emulation.AddedSize` | internal/h264/anticompetition.go:4-39 | three times the protected length is at most four times the plain length |
| `Emulation.AddedIsTheLongestPreimage` | internal/h264/anticompetition.go:42-90 | of all byte strings that unprotect to x, the protected form of x is the longest, and the only one of its length |
| `Emulation.AddProtectsExactlyWithoutHoles` | internal/h264/anticompetition.go:23-33 | the output is free of 000000, 000001 and 000002 iff the input has no four zeros followed by a byte of at most two |
| `Emulation.FiveZerosStayUnprotected` | internal/h264/anticompetition.go:23-33 | an input on which protection fails |
| `Transport.ProtectedIsGoodExactly` | internal/h264/anticompetition.go:23-33 | a protected payload is a good NALU iff it is not empty, ends suitably, and has no 1 after a run of 4, 7, 10, ... zeros |
| `Transport.PayloadsComeBackOnlyAsSent` | internal/h264/annexb.go:8-79 | payloads that come back through protection, encoding, decoding and unprotection at all come back by way of the very NALUs that were sent |
| `Transport.TransportExactly` | internal/h264/annexb.go:8-79 | that way gives a list of payloads back iff there is at least one and each of them is as in the row above |
| `Transport.GapIsNotCarried` | internal/h264/anticompetition.go:23-33 | a payload of four zeros and a one is protected and does not come back |
| `Transport.OrdinaryPayloadsAreCarried` | internal/h264/anticompetition.go:4-90 | payloads that end in a non-zero byte and have no run of four zeros come back, and are protected |
| `Adts.DecodeADTS` | internal/aac/adts.go:15-115 | the consuming loop computes the decoder, every error in its order |
| `Adts.EncodeADTS` | internal/aac/adts.go:118-191 | the appending loop computes the encoder, the first unsupported packet failing it |
| `Adts.TablesAgree` | internal/aac/adts.go:38-88 | the encoder's tables invert the decoder's on both sides |
| `Adts.TablesMean` | internal/aac/adts.go:38-88 | the thirteen sampling frequencies and the channel configurations, value by value |
| `Adts.SupportedMeans` | internal/aac/adts.go:125-175 | which packets the encoder accepts, by rate and channels |
| `Adts.EncodeErrors` | internal/aac/adts.go:125-175 | the encoder refuses the channels first, and then the rate |
| `Adts.HeaderChecks` | internal/aac/adts.go:20-109 | what the decoder makes of a whole header, byte by byte: each refusal in its order, a CRC included, and otherwise the packet |
| `Adts.HeaderFields` | internal/aac/adts.go:177-184 | the seven header bytes say what went into them, the length modulo its thirteen bits |
| `Adts.HeaderBytes` | internal/aac/adts.go:177-184 | the constant bytes of the header: no CRC, and a fullness of 1800 |
| `Adts.RoundTripExactly` | internal/aac/adts.go:15-191 | the encoder accepts exactly supported packets, and decoding gives the packets back iff no frame exceeds 8184 bytes |
| `Adts.DecodedIsCodable` | internal/aac/adts.go:15-115 | everything the decoder accepts is made of supported packets of at most 8184 bytes |
| `Adts.ReencodingKeepsPackets` | internal/aac/adts.go:15-191 | for every accepted stream, encoding again succeeds with the same length and decodes to the same packets |

## Left out

- Paths.Path.Turn: not for messages on which the code panics (`PathModel.Panics`); a panic ends the run, and is not modelled as an outcome. Timers fire only when armed, and only the static sources of a static path report about themselves (`PathModel.Receivable`).
- PathRuns.RunsAreSafe: for runs of messages that satisfy `PathModel.Allowed`, an assumption that the server does not uphold entirely, as are the other results over `Possible` runs; sessions and connections are not part of this model.
- PathRuns.RequestsAreConserved: follows the model also where the code would have panicked.
- Paths.Path.OnDemandStartSource: the command is a boolean handle; processes, their restarts and `runOnInit`, `runOnPublish` and `runOnRead` are not modelled.
- Paths.Path.SourceSetReady: the notice to the path manager and the HLS server, and the tracks of the stream.
- Paths.Path.Finish: waiting for a static source's goroutine, and the last notice to the path manager (its effect there is `PathManagers.PathManager.HandlePathClose`).
- PathInvariants.HandleKeepsInv: the API listing of paths, which changes nothing.
- Dts.DecodingTimesAreOrdered: times are unbounded integers; overflow of 64-bit durations is not modelled.
- PathManagers.PathManager.HandleRequest: authentication is a boolean, regular expressions are a matching predicate, and the order of Go's map iteration is left open.
- Cores.Core.constructor: addresses, durations, commands, keys and log settings are opaque values that are only compared; reading the configuration file and watching it are left out.
- Cores.Core.CloseResources: a component is a value with an identity, so its own goroutines, and what happens while others still log or call it during a reload, are not modelled; whether the old and new path tables compare equal is a parameter, assumed to be true only of tables with equal entries. The statistics object, which lives as long as the core, is left out.
- Cores.Core.CreateResources: whether a component fails to start is a parameter; a server that ends by itself later is not modelled.
- Hls.Muxer.constructor: decoding the AAC configuration and its errors; the segment name, taken from the clock, is a parameter.
- Hls.TSFile.WriteH264: what the MPEG-TS multiplexer makes of a unit is a parameter, so its write errors, the program clock reference and the scaling of times to 90 kHz floats are not modelled.
- Hls.Muxer.WriteH264: not for a group with an empty NALU, on which internal/hls/muxer.go:91 panics.
- Hls.Muxer.GetPlaylist: the playlist is a record; its M3U8 text is left out, and seconds are rounded as exact rationals instead of floats.
- HlsRuns.SegmentsPartitionTheStream: without write errors, that is with an audio configuration that ADTS can express; `Hls.Muxer.WriteAAC` says what happens otherwise.
- Buffer.Reader.Read: a read that sleeps is two atomic steps, `Read` and `Resume`; that a sleeping reader is woken is not modelled.
- Adts.DecodeADTS: an index or slice expression that fails at run time is the error `OutOfRange`.
- Network servers, connections, RTSP and RTMP sources, HTTP and RTP handling around the muxer, logging, and the order and completion of shutdown across goroutines.
- The AVCC format, which is simpler than the codecs here.
