# A verified model of agterm-remote

agterm-remote runs a daemon on a Mac. For every remote host it keeps a reverse SSH tunnel and a
local receiver socket, and lets programs on the host call `agtermctl` on the Mac, as far as a
policy over agterm's rows and panes allows. This project models the parts of that daemon whose
correctness depends on order, ownership or exact text, and proves what they promise.

- **Host lifecycle** (`HostLifecycle.dfy`, `HostProgress.dfy`, `Daemon.dfy`). `startHost`,
  `stopHost`, `Start` and `Close` as a labelled transition system: each section under the daemon's
  mutex is one step, the numbers of runtimes, calls and restarts are unbounded, and a timeout may fire
  at any moment. One inductive invariant carries the theorems, and no reachable state is stuck. The
  same sections are methods over mutable fields in `Daemon.dfy`, each proved to be its transition.
- **Proxied calls** (`ArgGrammar.dfy`, `ArgLanguage.dfy`, `Allowlist.dfy`, `Calls.dfy`,
  `Policy.dfy`, `PageSize.dfy`, `SessionNames.dfy`, `OpenCommand.dfy`, `ShellQuoting.dfy`, `Tokens.dfy`).
  An argument list is parsed, matched to a leaf, normalised, decided, and printed again for the real
  `agtermctl`. Parser and printer undo each other, and no allowed call reaches past what the host owns
  or was granted.
- **Per-host runtime** (`HostCtl.dfy`, `PageShim.dfy`, `PageRuns.dfy`, `PagePromises.dfy`,
  `Consent.dfy`). Admission with a drain, host pages from their registration to their release in every
  interleaving of calls, watchers, POSTs and shutdowns, and the consent dialog with its memory of
  refusals.
- **Binding store** (`BindingStore.dfy`). A list of bindings in which no entry supersedes another.
- **Streams and files** (`Frames.dfy`, `EventLines.dfy`, `ConfigWords.dfy`, `ConfigLines.dfy`,
  `HookConfig.dfy`, `KeymapLines.dfy`, `KeymapConfig.dfy`, `HandledPanes.dfy`, `Reconnect.dfy`).

Objects whose methods change fields are classes here, and loops are loops; each such method is
proved equal to a function or a step, and the theorems are about those. Where other threads run
between the turns of a loop (a page's wait, a drive over a slot, the release of a host's pages), each
turn is a step of a transition system.

## Conventions

- Strings are sequences of characters. Where the program works on bytes (frames, event lines, typed
  text), a character stands for one byte.
- Ids are compared without case by folding ASCII letters.
- UUID syntax, URL validity, UTF-8 decoding and the Unicode category Cf are parameters.
- Clocks, random factors, answers of agterm, of ssh and of other processes are parameters or
  nondeterministic steps. Tokens are fresh and host keys are distinct.
- `AddOther` in the lifecycle (a child goroutine that belongs to no host) is enabled while the daemon
  is started and not closing, or while such a child already runs: `Run` starts and closes the daemon
  in sequence.
- Exit codes are natural numbers: the daemon turns a negative one into 1 before it is framed.
- The tree agterm reports names rows and panes by ids without NUL bytes, and rows by non-empty ones.

## Where the code does less than its text says

- `wireHooks` leaves a second run without effect exactly when the binary is called `agr`
  (`HookConfig.SecondRunChangesNothing`): a renamed binary is not recognised in the lines setup
  itself wrote, so each run appends them again.
- `wireCommand` changes a line again on a second run when its name or a word before the agr word starts
  with a single quote that is not closed, since the quotes setup writes close it; an open double quote
  does no harm. `KeymapConfig.SecondRunExactly` gives the exact condition, with and without a key.
- Two binds that do not conflict need not commute (`BindingStore.BindsNeedNotCommute`): when one of
  them retires the entry from which the other would inherit its grants, the order decides whether
  they survive. `BindingStore.BindsCommute` gives the exact condition.
- `NewRow.Release` is documented as safe to call more than once. A further call is harmless exactly
  when no running call holds that name by then (`SessionNames.RepeatedReleases`,
  `SessionNames.SecondReleaseFrees`); the daemon calls it once.
- A live pane is claimed as new once only if no hook's tree snapshot is older than the grace period by
  more than one unit of the clock (`HandledPanes.ClaimedOnceExactly`).
- Two generations of a host can listen at once after a teardown timed out with the listener of that
  host still open while the daemon serves, and only then (`HostLifecycle.GenerationsDoNotOverlap`,
  `HostLifecycle.LoosenedOverlaps`).

## Model

| member | source | states |
|---|---|---|
| HostLifecycle.RunKeepsInv | internal/daemon/daemon.go:520-783 | in every interleaving of starts, stops, closes, restarts, goroutine ends and timeouts, the ownership, counting and waiting invariant holds in every state |
| HostLifecycle.SlotOwnsItsSocket | internal/daemon/daemon.go:614-690 | while the daemon is started and not closing, a runtime in the slot map is bound and the file at its path is its own; a path owned by a runtime always belongs to the one in the slot |
| HostLifecycle.RemovalIsOwn | internal/daemon/daemon.go:766-782 | a step that ends a runtime's ownership of its path is that runtime's own teardown or Close acting for it, also after timeouts and across restarts |
| HostLifecycle.BindMeetsNoPredecessor | internal/daemon/daemon.go:656-690 | the bind of a claimed slot never finds a path another runtime of the daemon owns, and a successful one makes the path its own |
| HostLifecycle.NeverPanics | internal/daemon/daemon.go:605-625 | no channel is closed twice and no WaitGroup goes negative or is raised from zero beside a waiter |
| HostLifecycle.PanicsAreRecorded | internal/daemon/daemon.go:605-625 | the flag is set by a step exactly when it closes a closed torndown, takes a counter below zero, or raises the children counter from zero beside a waiter that has not returned |
| HostLifecycle.CountersAreSound | internal/daemon/daemon.go:605-625 | no counter of goroutines or children is ever negative, and the children counter rises from zero only while nobody waits for it |
| HostLifecycle.ChildrenAreTheReservedSlots | internal/daemon/daemon.go:655-656 | the children counter is always the sum of the reserved and running slots and the daemon's other children |
| HostLifecycle.FreeLockMeansQuiet | internal/daemon/daemon.go:304-389 | whenever the flock is free no child, listener, waiter, slot or owned path of an earlier generation is left |
| HostLifecycle.TorndownClosesOnce | internal/daemon/daemon.go:727-783 | at most one step of a run closes a runtime's torndown, and for a bound runtime only after its teardown was claimed |
| HostLifecycle.WaitersHaveAWaker | internal/daemon/daemon.go:626-650 | behind every call blocked on a teardown there is a thread that will close it, or it is closed already |
| HostLifecycle.SuccessMeansLive | internal/daemon/daemon.go:520-692 | whatever step brings a call of startHost to success, its host is then in the slot map, bound and not stopping, and unless the call waited for a predecessor the daemon is started and not closing |
| HostLifecycle.FailureHasAReason | internal/daemon/daemon.go:520-692 | startHost fails only when called on a daemon that is not started or closing, when its remote round trips fail, when the daemon is so at the claim, or when the slot is free and the path cannot be bound; never because a predecessor is being torn down |
| HostLifecycle.StoppedOnReturn | internal/daemon/daemon.go:727-783 | when stopHost returns, the runtime its host had when it was called is torn down, whoever tore it down: it holds neither the slot nor the path |
| HostLifecycle.GenerationsDoNotOverlap | internal/daemon/daemon.go:757-783 | in a run in which no earlier step freed the slot of a host whose runtime still listened, at most one runtime of that host listens, and while the daemon serves it is the one in the slot, whatever timed out elsewhere |
| HostLifecycle.LoosenedOverlaps | internal/daemon/daemon.go:757-783 | every run with such a step, cut off behind it, goes on with one startHost to two listening runtimes of the host |
| HostLifecycle.LoosensByTimeout | internal/daemon/daemon.go:757-783 | only a teardown that timed out does that: one that waited for its goroutines leaves no listener behind |
| HostLifecycle.TimeoutLoosens | internal/daemon/daemon.go:757-783 | for every host there is a run with such a step: started, asked to stop, and timed out before its listener is closed |
| HostProgress.EveryCallCanReturn | internal/daemon/daemon.go:520-783 | from every state of every run any call of startHost or stopHost under way can return by steps of what already runs, without a timeout and without another call |
| HostProgress.CloseCanFinish | internal/daemon/daemon.go:258-389 | from every state a Close under way can finish in the same way; then the slot map is empty, and the flock is free unless this very Close had given up waiting |
| HostProgress.CloseGoesForward | internal/daemon/daemon.go:258-283 | one Close at a time: no step, another call of Close included, sends the one under way back or changes the hosts it shuts down, and only its own last step ends it |
| HostProgress.PathsGoBeforeTheWait | internal/daemon/daemon.go:284-328 | while Close waits for its children no path is owned any more, and while it unlinks, every one still owned is one it has yet to unlink |
| HostProgress.CanBeClosed | internal/daemon/daemon.go:258-389 | from every state without a Close under way one call of Close can free the flock, also after an earlier Close kept it |
| DaemonSections.Daemon.EarlyCheck | internal/daemon/daemon.go:520-556 | the first section of startHost is the early-check transition and its answer names the state the call goes to |
| DaemonSections.Daemon.Claim | internal/daemon/daemon.go:626-692 | the authoritative section of startHost is the claim transition; each outcome says what the fields were and are: refused, running already, waiting for the entry that is stopping, bind failed, or bound and in the slot map |
| DaemonSections.Daemon.PublishBound | internal/daemon/daemon.go:655-690 | publishing, reserving and binding are one transition of the fields |
| DaemonSections.Daemon.PublishFailed | internal/daemon/daemon.go:655-688 | a failed bind leaves the slot map as it was and the reserved children to the unwinding |
| DaemonSections.Daemon.StopClaim | internal/daemon/daemon.go:727-752 | the first section of stopHost is the stop-claim transition; nothing to stop means no entry, another's teardown means the entry was stopping and is waited for, a claim means it was not and now is, and keeps its slot |
| DaemonSections.Daemon.StopFree | internal/daemon/daemon.go:774-781 | unlinking and freeing the slot is one transition, done only for the slot's current holder |
| DaemonSections.Daemon.StopClose | internal/daemon/daemon.go:782-782 | closing torndown is the last transition of a teardown |
| DaemonSections.Daemon.Start | internal/daemon/daemon.go:207-219 | the locked section of Start is the start transition |
| DaemonSections.Daemon.CloseBegin | internal/daemon/daemon.go:258-283 | the first section of Close is its transition: refused, or closing with a snapshot of the hosts |
| DaemonSections.Daemon.CloseDrain | internal/daemon/daemon.go:320-328 | one waiter per generation is set up |
| DaemonSections.Daemon.CloseFinish | internal/daemon/daemon.go:358-389 | the flock is given back only when the children drained |
| ArgGrammar.ParseArgs | internal/proxy/argv.go:74-144 | the index loop over the arguments computes the step-by-step parse |
| ArgLanguage.ParserReadsGrammar | internal/proxy/argv.go:69-144 | the parser accepts exactly the argument lists an independent grammar spells (joined and spaced values, flags, help, the terminator, dropped and stripped options) and gives them their meaning |
| ArgGrammar.ParseIsWellFormed | internal/proxy/argv.go:74-144 | every accepted parse holds only options of the schema with values it takes, repeats only where allowed, and no NUL byte |
| ArgGrammar.ParsePrint | internal/proxy/policy.go:389-423 | options and positionals that fit a schema, printed, parse back to themselves, positionals starting with a dash included |
| ArgGrammar.NormalForm | internal/proxy/policy.go:385-423 | printing what any accepted argument list parsed to and parsing that again gives the same options and positionals |
| Allowlist.EveryLeafOk | internal/proxy/policy.go:130-185 | each leaf of the allowlist has the options its scope needs under the names and roles the printer writes |
| Allowlist.ScopesAre | internal/proxy/policy.go:130-185 | exactly the listed leaves need no scope, exactly notify is about the caller, exactly session type types and exactly session overlay open opens an overlay |
| Calls.MatchLeaf | internal/proxy/policy.go:235-259 | the leaf chosen is the first of the longest paths that the arguments start with, and there is none exactly when no path matches |
| Calls.OneLeafMatches | internal/proxy/policy.go:235-259 | at most one leaf fits an argument list, and one does exactly when some path of the table starts it |
| Calls.NormaliseCall | internal/proxy/policy.go:696-762 | the loop over the options computes the normalised call or the first refusal |
| Calls.NormaliseMeans | internal/proxy/policy.go:696-762 | a call passes exactly when a list of conditions on its options and positionals holds, and then its rows, pane, side, files, command, the option the command came in and the other options are exactly those given, in order |
| Calls.OverlaySources | internal/proxy/policy.go:273-307 | an overlay may open exactly when one of a page, a URL and a command is given and no other, and a URL given passes the check and comes without JavaScript |
| Calls.FileIndexIs | internal/proxy/policy.go:773-785 | an option names the k-th attached file exactly when its value is @ and k in decimal and there are more than k files |
| Calls.RowsRepeatIs | internal/proxy/policy.go:764-771 | a call may name several rows exactly when its leaf has a row option that repeats |
| Calls.RenderedIsRead | internal/proxy/policy.go:389-423 | a call printed with any fitting targets is matched to the same leaf, parses, and normalises to the same call at exactly those targets |
| Calls.HelpIsRead | internal/proxy/policy.go:389-393 | a help call is printed as its path and --help and is read back as that |
| Policy.Load | internal/proxy/policy.go:787-830 | the caller's binding is looked up again and exactly its grants without a live pane are listed for dropping |
| Policy.StaleGrantsAre | internal/proxy/policy.go:820-828 | a grant is listed for dropping if and only if the caller holds it and its row or pane is gone |
| Policy.FindTargetRows | internal/proxy/policy.go:853-871 | the loop with its set of seen rows computes the rows named, in order |
| Policy.TargetRowsSome | internal/proxy/policy.go:853-871 | target rows are live, never empty and never the same row twice |
| Policy.ChosenPane | internal/proxy/policy.go:875-912 | the pane chosen is in the row and is the one named; unnamed, it is the caller's own or the only one the call could act on |
| Policy.CandidateIs | internal/proxy/policy.go:1064-1096 | a pane counts for a call that names none exactly when the host has its binding in that row, or the call types, no binding claims the pane and an agent runs in it |
| Policy.FindPane | internal/proxy/policy.go:1064-1096 | the branches and the candidate loop compute the chosen pane |
| Policy.CheckWholeRow | internal/proxy/policy.go:971-997 | true exactly when every surface is a pane that is owned and attached or hidden without an id, and at least one is not hidden |
| Policy.SanitizeTyped | internal/proxy/policy.go:554-571 | true exactly for valid UTF-8 of at most 64 KiB without controls other than newline and tab and without format characters |
| Policy.PaneContract | internal/proxy/policy.go:1022-1061 | a pane call runs exactly when the pane is owned and attached or is typed into under a grant, and asks exactly when only the grant is missing |
| Policy.TypedTextIsVetted | internal/proxy/policy.go:1101-1157 | a call on a pane that is not the host's gets past refusal exactly when it names text in one way, by stdin alone or by one positional, that text is harmless, an agent runs on that side and no binding claims the pane; the text the user is shown is that very text |
| Policy.PaneCallRuns | internal/proxy/policy.go:1022-1061 | a pane call runs if and only if it is about a pane that the last binding of its id and a running agr open make the host's, or that may be typed into under a grant |
| Policy.RowContract | internal/proxy/policy.go:999-1020 | a row call runs if and only if every value names a live row of the tree, every surface of each is a hidden pane or one the bindings and a running agr open make the host's, one at least the latter, and the pane asked for is there; its targets are those rows, each once, with that pane |
| Policy.CallerContract | internal/proxy/policy.go:930-953 | a caller call runs if and only if every value names the caller's row, that row is live, and it holds a pane of the caller's id that the bindings and a running agr open make the host's |
| Policy.AllowedIsEntitled | internal/proxy/policy.go:930-1061 | every target of every allowed scoped call is one the host may act on: its own attached pane, its whole row, or a pane typed into with clean text under a current grant |
| Policy.AuthorizedIsEntitled | internal/proxy/policy.go:628-694 | a call about rows or panes is refused when the caller's binding is gone, and is allowed only with at least one target, each of which the host of the binding as it is now may act on |
| Policy.DecidedForCaller | internal/proxy/policy.go:787-830 | it is decided for the first stored binding of the caller's host, name, row and pane, with its grants as they are now |
| Policy.AllowedCallIsRead | internal/proxy/policy.go:659-694 | an allowed call of the allowlist is printed so that agtermctl's grammar reads the same leaf and call with the decision's targets |
| Policy.Authz.RunCaller | internal/proxy/policy.go:930-953 | the code's caller branch reaches the specified decision |
| Policy.Authz.RunPane | internal/proxy/policy.go:1022-1061 | the code's pane branch reaches the specified decision |
| Policy.Authz.RunRow | internal/proxy/policy.go:999-1020 | the loop that appends targets reaches the specified decision |
| Policy.Authz.RunTypeLocal | internal/proxy/policy.go:1132-1157 | the program rule, the sanitiser and the grant loop reach the specified decision |
| Policy.Authz.Run | internal/proxy/policy.go:682-693 | the decision by scope is the specified one |
| Policy.Authorize | internal/proxy/policy.go:628-694 | loading the caller's binding anew and then deciding by scope reaches the specified decision, and the stale grants of the binding as it is now are listed |
| Policy.GrantIsCurrent | internal/proxy/policy.go:806-830 | a call is allowed by a grant only if the caller's binding is there at the decision and holds a grant for the unbound pane typed into |
| PageSize.SizedPage | internal/proxy/rewrite.go:127-153 | a page, that is an overlay of a file or a URL, runs at a size exactly when one is given and it has no side or its whole row is the host's, or the user's default applies to such a row; then it has no side; its other options stay |
| PageSize.NoPageIsKept | internal/proxy/rewrite.go:127-153 | an overlay that is no page keeps its size and side |
| PageSize.PageCoversOwnRowOnly | internal/proxy/rewrite.go:127-153 | an allowed page covers both panes of a split row only where the host owns the whole row |
| SessionNames.Rewriter.PickName | internal/proxy/rewrite.go:352-389 | the name picked is the wanted one if valid and free, else the first valid and free numbered one, else none |
| SessionNames.PickIs | internal/proxy/rewrite.go:379-389 | the wanted name if valid and free, else the first free one of -2 to -999 behind the wanted name if that is valid and behind the session's own if not, else none |
| SessionNames.Rewriter.GenerateName | internal/proxy/rewrite.go:326-340 | selection and reservation are one step |
| SessionNames.Rewriter.Release | internal/proxy/rewrite.go:344-350 | a release gives back exactly one reservation |
| SessionNames.HeldNamesDiffer | internal/proxy/rewrite.go:326-350 | in every interleaving, harmless repeated releases included, the names calls hold on one host are valid and pairwise distinct, and a call that starts then is offered none of them |
| SessionNames.NameStaysTaken | internal/daemon/proxy.go:338-349 | from its selection through the pre-bind and past the release a name is offered to no other call while its row stays bound |
| SessionNames.WantedIsOffered | internal/proxy/rewrite.go:352-389 | a valid name that is wanted is offered exactly when no session, bound row or running call of that host has it |
| SessionNames.RepeatedReleases | internal/proxy/rewrite.go:41-45 | in a run with any repeated releases every running call keeps its own reserved name throughout if and only if no repeated release names what a running call holds |
| SessionNames.SecondReleaseFrees | internal/proxy/rewrite.go:41-45 | from any state with a running call whose row is not bound, releasing its name twice around the next call's selection takes it from that call and offers it to a third |
| Tokens.ValidIs | internal/token/token.go:11-26 | a token starts with a letter, digit or underscore and goes on with these, dots and dashes; it may stand for a host |
| Tokens.ValidHostIs | internal/token/token.go:36-54 | the printable characters left after the shell's own are exactly those of a token and eight others |
| ShellQuoting.JoinWords | internal/proxy/quote.go:16-22 | the loop that quotes and joins computes the joined line |
| ShellQuoting.SplitJoin | internal/proxy/quote.go:10-22 | POSIX word splitting of the joined line gives back exactly the words, whatever they contain |
| ShellQuoting.JoinInjective | internal/remote/ssh.go:177-183 | different argument lists never give the same command line |
| ShellQuoting.OverlayReachesHost | internal/proxy/rewrite.go:226-236 | through both shells an overlay command reaches the host's sh -c unchanged exactly when the host is valid and the directory absolute or absent, and otherwise nothing runs |
| OpenCommand.ParseOpenArgs | cmd/agr/run.go:397-424 | the index loop computes the parse of agr open's arguments |
| OpenCommand.OpenAgreesWithPolicy | internal/proxy/policy.go:522-548 | agr open accepts arguments exactly when the policy's reading succeeds and no flag repeats, and both see the same positionals |
| OpenCommand.OpenReadsGrammar | cmd/agr/run.go:397-424 | a list spelled from words that are no flags and from flags with a value is accepted exactly when no flag repeats, and gives those words and those values |
| OpenCommand.ReadIsSpelled | internal/proxy/policy.go:531-543 | every list the policy's reading accepts is spelled in that way |
| OpenCommand.AttachedMeans | internal/proxy/policy.go:522-548 | a binding is attached exactly when the first surface of its pane id runs, on its side, a program called agr with the verb open whose first words are the binding's host and, if given, its name |
| OpenCommand.CheckAttached | internal/proxy/policy.go:522-548 | the lookups and the loop decide attachment as specified |
| OpenCommand.NewRowIsAttached | internal/proxy/rewrite.go:308-318 | a new row's command line, split by a shell, makes its left pane attached for the binding preBind stores, unless a surface of another kind has the same id, and agr open takes it with the same host, name, directory and command |
| HostCtl.Ctl.Enter | internal/daemon/proxy.go:177-189 | a call is counted in exactly when the host is open and below the cap |
| HostCtl.Ctl.Leave | internal/daemon/proxy.go:204-217 | a leaving call gives back its slot and closes the drain when it was the last |
| HostCtl.Ctl.Track | internal/daemon/proxy.go:221-238 | a job is counted exactly while the host is open |
| HostCtl.Ctl.Shutdown | internal/daemon/proxy.go:242-253 | shutdown refuses new calls and waits exactly when something runs |
| HostCtl.Accounting | internal/daemon/proxy.go:177-253 | in every interleaving at most 16 calls hold a slot, each exactly one, what runs is calls plus jobs, and the drain closes at most once |
| HostCtl.TurnedAwayOnlyWhenFull | internal/daemon/proxy.go:177-253 | a call is turned away exactly from a host that shuts down or has sixteen calls, a job exactly from one that shuts down, and a shutdown returns at once exactly when nothing runs |
| HostCtl.ShutdownIsWoken | internal/daemon/proxy.go:211-253 | a waiting shutdown can go on, or something still runs whose end will let it |
| HostCtl.QuietAfterShutdown | internal/daemon/proxy.go:242-253 | once shutdown has returned nothing runs and nothing ever will |
| PageShim.Page.Bind | internal/daemon/pageshim.go:83-91 | the first page id wins and its channel closes with it |
| PageShim.Page.Transition | internal/daemon/pageshim.go:107-116 | an open page takes the state and value, any other keeps both, and the caller learns which |
| PageShim.Page.Outcome | internal/daemon/pageshim.go:120-134 | a blocking call reports the value and 0 of a submitted page, else 2 |
| PageShim.Shim.Register | internal/daemon/pageshim.go:210-227 | a page is added exactly below eight per host with a running server, and counted |
| PageShim.Shim.Release | internal/daemon/pageshim.go:230-242 | a page leaves once, is uncounted and remembered; a second release or one after close does nothing |
| PageShim.Shim.Remember | internal/daemon/pageshim.go:284-294 | the remembered tokens are exactly the last 1024 released |
| PageShim.Shim.Close | internal/daemon/pageshim.go:193-206 | every page goes at once and the counts with them |
| PageShim.Shim.Spent | internal/daemon/pageshim.go:297-301 | a token is known as spent exactly when it is among the last 1024 released |
| PageRuns.RunKeepsInv | internal/daemon/pageshim.go:190-257 | in every interleaving of calls, watchers, POSTs, submits and closes, host releases, host ends and the end of the daemon, the ownership, counting and state invariant holds in every state |
| PageRuns.NothingLeft | internal/daemon/proxy.go:481-544 | a page in the registry and a temp directory always has a call or watcher that still has to release it; when all are done neither is left |
| PageRuns.CountsAreRight | internal/daemon/pageshim.go:210-294 | at every moment a host's count is the number of its pages and at most eight, and the tokens remembered are the last 1024 released, each released once |
| PageRuns.OneWinner | internal/daemon/pageshim.go:107-116 | over a whole run at most one attempt of a POST, a poll or a drive wins a page |
| PageRuns.WinnerDecides | internal/daemon/pageshim.go:107-116 | a page that is not open was won by one earlier step and has that step's state and value |
| PagePromises.ReportsTheWinner | internal/daemon/proxy.go:523-533 | a blocking call that reports an outcome reports exactly that of the one step that won its page: the value of a submit by the page or by the host and 0, or no value and 2 |
| PageRuns.PollDismisses | internal/daemon/pageshim.go:306-339 | a poll dismisses an open page exactly when it finds it gone or is the last of eight in a row that missed its row |
| PageRuns.MissesMeans | internal/daemon/pageshim.go:327-334 | the miss counter reaches n exactly when the last n polls all missed the row |
| PageRuns.DriveLeavesNoneOpen | internal/daemon/proxy.go:439-470 | after a submit or close from the host none of the host's pages that were open in that slot, on its side or over the whole row, is open, whoever moved them meanwhile |
| PagePromises.DriveMovesOnlyItsSlot | internal/daemon/pageshim.go:258-272 | it moves only pages that were open in its slot when it began, dismissing them, but the first one agterm shows takes its move |
| PagePromises.ShownPageTakesTheMove | internal/daemon/proxy.go:439-470 | the first page of the slot that agterm shows takes the submit or close unless someone moved it before |
| PagePromises.ExitHasAReason | internal/daemon/proxy.go:481-534 | a call reports a code without an outcome only when agtermctl failed with it, its client left while it waited, or it does not block and was handed on |
| PagePromises.BlockingIsKept | internal/daemon/proxy.go:515-533 | a blocking call ends with an outcome or a failure, another never with an outcome |
| PagePromises.RegisteredBelowEight | internal/daemon/pageshim.go:210-227 | a page is registered exactly when the server runs and its host has fewer than eight, as that host's open page of that row and side |
| PagePromises.DirsArePages | internal/daemon/pageshim.go:193-242 | a temp directory is there exactly as long as its page is in the registry |
| PagePromises.PageLeavesBy | internal/daemon/pageshim.go:193-257 | a page leaves the registry only by its own call or watcher, with its host's pages, or with the daemon |
| PagePromises.SubmittedIsBound | internal/daemon/pageshim.go:473-489 | no page is submitted before agterm's id for it is known |
| PagePromises.HandedWhileItsRuntimeLives | internal/daemon/proxy.go:516-522 | a page is handed to a watcher exactly while the runtime that opened it has not ended |
| PagePromises.OwnerCanEnd | internal/daemon/proxy.go:481-544 | from every state of every run the call or watcher that owns a page can end by steps of its own alone, and then neither the page nor its temp directory is left |
| PagePromises.PostSubmits | internal/daemon/pageshim.go:432-468 | a page that is there, open and bound can be submitted by a POST with its token, which sets its state and value |
| PageRuns.SweepLeavesNone | internal/daemon/pageshim.go:244-257 | once a host that goes away has released the pages it collected, none of those it had at the start is left |
| Consent.HostConsent.Take | internal/daemon/consent.go:48-71 | the dialog slot is taken exactly when no dialog is open and the row is outside its refusal window |
| Consent.HostConsent.RefuseRow | internal/daemon/consent.go:106-110 | a refusal is remembered for one window |
| Consent.OneDialog | internal/daemon/consent.go:48-76 | a host has at most one dialog open in every interleaving |
| Consent.NoDialogInWindow | internal/daemon/consent.go:48-110 | after a dialog that ended with a no, without an answer, or with a client that left while the host goes on, no dialog opens on that row for a minute |
| Consent.TurnedAwayOnlyAfterRefusal | internal/daemon/consent.go:54-66 | a call is turned away without a dialog only while another call holds the dialog, or within a minute of such an end on the same row |
| Consent.AnsweredIsChecked | internal/daemon/consent.go:84-128 | a call answered once or pair that has ended was checked again after the answer, and may run exactly if that check held |
| Consent.CallsComeToAnEnd | internal/daemon/consent.go:48-128 | every step of a call brings it nearer its end, at which it holds no dialog; a dialog that fails to open is closed as a no |
| Consent.GrantedByPairOnly | internal/daemon/consent.go:82-128 | a call's consent is kept as a grant exactly if the answer was pair, not once, and the check after it held |
| Consent.RunsOnlyWithConsent | internal/daemon/consent.go:48-128 | a call that needed consent may run only after its own dialog was opened, then answered once or pair, and then the program rule was checked again and held |
| BindingStore.Store.Upsert | internal/bindings/store.go:254-268 | the loop builds the kept entries followed by the new one with the inherited grants |
| BindingStore.Store.Save | internal/bindings/store.go:79-93 | saving is the bindings upserted one after the other, written once |
| BindingStore.Store.Bind | internal/bindings/store.go:97-108 | binding is one upsert |
| BindingStore.Store.EditGrants | internal/bindings/store.go:138-159 | the grants of the first entry of host and name are edited in place; a missing entry changes nothing |
| BindingStore.Store.UnbindRow | internal/bindings/store.go:163-180 | exactly the entries of the row go |
| BindingStore.Store.ByHostName | internal/bindings/store.go:183-194 | the first entry of host and name is found |
| BindingStore.SupersedesIsConflict | internal/bindings/store.go:270-278 | supersedes is reflexive and symmetric |
| BindingStore.IndependentMeans | internal/bindings/store.go:254-278 | no entry supersedes another exactly when host and name, pane ids and row slots are each used once and an entry without a pane id has its row alone |
| BindingStore.RunsStayIndependent | internal/bindings/store.go:79-180 | every sequence of operations on the empty store keeps the entries pairwise non-superseding |
| BindingStore.UpsertRefinesMap | internal/bindings/store.go:254-268 | an upsert is an update of the map from host and name after removing what it supersedes; a re-bind without grants keeps exactly the old list, on any row |
| BindingStore.WithoutRowRefinesMap | internal/bindings/store.go:163-180 | unbinding a row removes exactly its keys from the map |
| BindingStore.EditedGrants | internal/bindings/store.go:113-136 | in any run an added grant is held if there is a binding, a dropped one is gone, and the others stay |
| BindingStore.GrantProvenance | internal/bindings/store.go:113-159 | a grant held after any run was put there by one operation that named it, and held without a break since |
| BindingStore.BindsCommute | internal/bindings/store.go:254-268 | two binds that do not conflict commute up to order exactly when neither retires an entry the other would inherit grants from |
| BindingStore.BindsNeedNotCommute | internal/bindings/store.go:254-268 | a concrete store on which two such binds do not commute |
| HookConfig.RewriteHooks | internal/cli/setup.go:201-227 | the loop with its kinds seen and lines kept computes the rewritten file |
| HookConfig.HookIs | internal/cli/setup.go:201-231 | a line is a hook of a kind exactly when its words are on, the event, a word that names agr and the verb of that event, and then nothing or a comment |
| HookConfig.SecondRunChangesNothing | internal/cli/setup.go:201-227 | on any file a second run changes nothing exactly when the binary is called agr |
| HookConfig.OneHookOfEachKind | internal/cli/setup.go:201-227 | the rewritten file runs agr from exactly one recognised line per hook kind |
| HookConfig.OtherLinesStay | internal/cli/setup.go:201-227 | every line that is no hook, note or blank is kept in order, and none is added if the binary is called agr |
| HookConfig.PointedIsHook | internal/cli/setup.go:189-231 | a recognised line pointed at another agr is recognised as the same hook if that one is called agr, and not at all otherwise |
| KeymapConfig.RewriteCommand | internal/cli/setup.go:301-339 | finding, compacting and rewriting computes the rewritten file |
| KeymapConfig.KeyPassedOn | internal/cli/setup.go:297-320 | the command is bound to the key asked for; without one it keeps its chord, and if it has none it gets the first chord among the commands dropped behind it |
| KeymapLines.CommandIs | internal/cli/setup.go:342-366 | a line is a command of a verb exactly when its words start with command and, behind the name, a word that names agr stands before the verb |
| KeymapLines.ChordIs | internal/cli/setup.go:378-385 | a command's chord is the word behind its name unless that is an option or the agr word itself |
| KeymapConfig.SecondRunExactly | internal/cli/setup.go:301-339 | on a file where a gap follows the agr word, a second run changes nothing if and only if the binary is called agr, no name or word before the agr word starts with an unclosed single quote, and a gap follows the place of the key, if one is given or passed on |
| KeymapConfig.SecondRunChangesNothing | internal/cli/setup.go:301-339 | under those conditions a second run with the same key changes nothing on any file, a chord passed on included |
| KeymapConfig.RenamedChangesAgain | internal/cli/setup.go:301-339 | without a key and with a binary that is not called agr a second run changes every file again |
| KeymapConfig.AbuttingVerbStays | internal/cli/setup.go:301-339 | where the verb follows a double-quoted agr word without a gap, a second run can leave a line with an open quote as it is |
| KeymapLines.LineAgain | internal/cli/setup.go:321-339 | a rewritten stable line is read back as written and rewritten to itself, with its key or without one |
| KeymapLines.LineChanges | internal/cli/setup.go:321-339 | a line that is not stable, with a gap behind its agr word, is not read back or is changed by the next rewriting |
| KeymapConfig.OpenQuoteChangesAgain | internal/cli/setup.go:301-339 | a concrete file with an open quote that a second run changes again |
| KeymapConfig.OneCommand | internal/cli/setup.go:301-366 | the rewritten file has exactly one command of the verb, open quotes or not, if gaps follow the agr word and the place of a key, or the line is stable |
| KeymapLines.KeyedAgain | internal/cli/setup.go:329-337 | a line bound to a key is read back with that key as its chord if no word behind the key's place opens a quote and a gap follows that place |
| KeymapConfig.PasteOk | internal/cli/setup.go:285-295 | the paste command setup writes meets what the rewriting relies on |
| ConfigWords.FirstClosed | internal/cli/setup.go:187-189 | a closed quoted span is cut off exactly, whatever follows it |
| Frames.FrameWriter.WriteFrame | internal/proxy/wire.go:179-190 | one data frame is appended whole, or nothing after an exit |
| Frames.FrameWriter.WriteExit | internal/proxy/wire.go:194-202 | the one exit frame is appended, and later ones are refused |
| Frames.FrameWriter.Write | internal/proxy/wire.go:163-177 | all of the data goes out in order in frames of at most 64 KiB, or none of it after an exit |
| Frames.DecodeEncode | internal/proxy/wire.go:179-202 | a reader gets back exactly the frames written, whatever they carry |
| Frames.ReaderSeesStreams | internal/proxy/wire.go:163-202 | for every interleaving of writers and exit the reader decodes frames of at most 64 KiB with at most one exit, the last; each stream's bytes are a prefix of what its writer sent, and all but what is pending unless a write of that very writer came after the exit |
| EventLines.ReadEventLine | internal/receiver/listener.go:366-390 | one read takes exactly the next line of the stream and flags it exactly when it is over 64 KiB |
| EventLines.ReadAll | internal/receiver/listener.go:159-191 | however the stream is cut into slices, the lines are those of splitting it at newlines, and none after an oversized one is lost |
| EventLines.StreamsHaveSlices | internal/receiver/listener.go:366-390 | every stream can be read in slices |
| EventLines.EventsOfLines | internal/receiver/listener.go:366-390 | a stream of ended lines and a rest gives one event per line and one for a non-empty rest |
| HandledPanes.Store.Claim | internal/handled/store.go:40-69 | a claim is reported as made before exactly when it is still recorded after pruning, and is recorded otherwise |
| HandledPanes.Store.Prune | internal/handled/store.go:71-81 | exactly the claims that are not live and older than the grace period go |
| HandledPanes.ClaimedOnce | internal/handled/store.go:40-81 | a pane that stays live is claimed as new at most once in any run if every snapshot is at most one unit older than the grace period |
| HandledPanes.StaleSnapshotClaimsAgain | internal/handled/store.go:24-29 | with a snapshot two units older than the grace period any live pane can be claimed as new twice |
| HandledPanes.ClaimedOnceExactly | internal/handled/store.go:24-81 | a live pane is claimed as new once in every run with snapshots of at most a given age if and only if that age is at most one unit over the grace period |
| Backoff.NextBounds | internal/bridge/backoff.go:19-43 | after any previous delay the next is at most 36 s and at least the smaller of 24 s and 1.6 times the one before up to a nanosecond, and about a second after a healthy connection |
| Backoff.SettlesAtMaximum | internal/bridge/backoff.go:19-43 | from the ninth failure in a row every delay is between 24 and 36 s up to two nanoseconds |
| Supervision.Supervisor.SetState | internal/bridge/supervisor.go:431-445 | a state is recorded as a change exactly when it differs |
| Supervision.Supervisor.Supervise | internal/bridge/supervisor.go:199-240 | one process takes the state through Connecting, Up exactly if it is heard of or its timer fires before its end, and Down, and is gone at the end |
| Supervision.Supervisor.Run | internal/bridge/supervisor.go:174-252 | the changes of state are a cycle for every process that starts before the stop and nothing else, the delays waited for are the ones the failures and exits ask for, and Run returns Down without a process and with Changes closed |
| Supervision.ConnectionRuns | internal/bridge/supervisor.go:184-251 | a process that starts, lives and exits is a cycle of states, with Up exactly if it was heard of or its timer fired, and one delay; the events after the wait are run in the same way |
| Supervision.FailureRuns | internal/bridge/supervisor.go:184-251 | a start that fails changes no state and is followed by one delay |
| Supervision.StopEnds | internal/bridge/supervisor.go:184-251 | a stop takes a running process down or ends a wait, and nothing after it counts |
| Supervision.FailuresBackOff | internal/bridge/supervisor.go:184-251 | while no connection lasts more than 30 seconds, each delay of Run is one that follows the delay before it |

## Left out

- Sockets, ssh processes, file writes, JSON, HTTP, terminal handling: only their effects appear (owner of a path, answer of a dialog, tree snapshot, list of bindings).
- HostLifecycle.SlotOwnsItsSocket: the receiver path stands for a host by its name, so distinct hosts have distinct paths; two names with one file key are not modelled.
- Policy.AllowedCallIsRead: the argument list is the one before the rewriting of commands, file pages and sizes.
- OpenCommand.NewRowIsAttached: it needs the new pane's id to belong to left surfaces only, because the pane is looked up by id.
- KeymapConfig.SecondRunExactly: a line whose verb follows the agr word without a gap, and a passed-on chord that is quoted or put where no gap follows, are covered one way only (KeymapConfig.SecondRunChangesNothing); in the first case the exact condition would have to run the second rewriting (KeymapConfig.AbuttingVerbStays). Without the name agr and with a key nothing is said.
- Frames.FrameWriter.Write: it is the write of one writer alone; other writers between its chunks are the steps of Frames.ReaderSeesStreams.
- Frames.ReaderSeesStreams: a connection that fails in the middle of a frame is not modelled.
- Supervision.Supervisor.Run: which process an alive notification came from is not modelled, nor is a state change that a full Changes channel drops.
- Consent.GrantedByPairOnly: the grant itself is BindingStore's; that it may fail to be stored, which does not stop the call, is left out.
- PageRuns.SweepLeavesNone: pages the host registers after the collection stay, and pages a predecessor of the same host left behind after a teardown timeout are not told apart, since releaseHost goes by host name.
- PageRuns.RunKeepsInv: the removal of a temp directory is one step with the release it belongs to; the overlay's closing and the checks a POST fails are left out but for their outcome.
- A call that is only --help or -h, which is allowed before any leaf is matched; an empty argument list matches no leaf.
- Refusal texts, warnings beyond the dropped option's name, previews, the version cache, cancel hooks, temp directories and their sweep.
- Reading the request header and body: length checks and reads of announced sizes only.
- chordListContains, defaultedKey and endKey: they choose a chord before wireCommand and have no state.
- Corrupt or hand-edited binding files: the store starts from its own operations.
