# Verification of DazukoFS

DazukoFS is a stackable Linux filesystem that lets user-space processes decide whether a file may be
opened. Opening a file posts an event to every active group of registered processes; a process of each
group claims the event, answers it with ALLOW or DENY (or hands it back with REPOST), and the opener
sleeps until no group owes an answer. Groups come and go at any moment, by command or because their last
tracked process has gone.

The project models three parts of the module and the library that talks to it, and proves what they
promise.

**The access-decision protocol (event.c).** `Kernel` holds the shared data and says, critical section by
critical section, what the code does to it. `EventLists` carries the same operations out in place, with
the loops and the statement order of the source, and every method is proved to compute exactly the
function of the same name. `Protocol` lets any number of openers, writers and registered processes
interleave these sections (28 kinds of steps), together with the history of who was asked and who
answered. `Invariant` states what is kept, in layers: a core, which every step keeps
(`Preservation`, with the `Keeps...` modules); use counts, which every step keeps too, and on which it depends
whether a held group is freed (`Holding`); and tracking counts, which stay non-negative, or right, as long as
closes do not lower a count of zero, or do not hit another group (`Tracking`). `Verdicts` defines
runs and says what they keep; `Answers` tells the verdict of an access by its run alone. `Groups`,
`Guarantees`, `Devices`, `Ids`, `Outstanding` and `Drain` draw the other conclusions: when groups stop being
active and are freed, which containers are live, which group a call on a device works on, which ids are given
out, what is assigned in total, and that no opener is stranded. `Registry` and `Simulation` show that the list with its removed entries and piecemeal
cleanup is a map from names, step by step. `Example` and `Races` go through runs: one complete refusal,
and those that lead to the cases in which a promise fails. `ReleaseOnce`, `Recursion` and `LockOrder` cover
`release_event` on its own, the list of masked processes, and the locks.

**The text interface (ctrl_dev.c, group_dev.c, test/lib/dazukofs.c).** `CText` has the C string functions
on finite buffers; `Messages` the event message and the reply; `Control` the commands as text and
`CtrlDevice` the buffer and the pointers that walk over it; `Listing` the list of groups and how it is read
and searched; `Library` the library's side; `Session` ties a decision made in user space to the event it is
about, and the name of a group to its device, through the text and the protocol.

**The two-layer page cache (file.c, mmap.c).** `PageCache` proves when private copies of pages and the
lower file agree, and when both together are one memory.

Some promises turned out to hold only under a condition. Each is proved with its exact condition:

- A tracked close is matched by group id (event.c:838). It counts down and removes the right group exactly
  when the id has not passed to another tracking group (`Groups.CloseIsRightExactly`); a run leads to a close
  that takes a group away from under another open handle (`Races.SomeCloseIsWrong`).
- A group that a call holds is freed exactly when a scan frees a group whose tracking count is negative
  (`Holding.StaysSafeExactly`), and counts become negative exactly when a close finds a tracking group whose
  count is zero and so passes over the removal (event.c:839-842, `Tracking.NegativeExactly`). While no close
  does that, nothing held is freed (`Verdicts.RunsKeepSafeInv`); a run in which one does ends with a group freed
  under a process that is reading from it (`Races.SomeHeldGroupIsFreed`).
- The container a claimer or reposter goes on using after dropping `work_mutex` (event.c:924-928,
  event.c:1156-1167) is on a list of its group exactly while that group has neither answered nor been
  removed (`Guarantees.ContainerIsLinkedExactly`); a run leads to a claimer for which it is not
  (`Example.SomeClaimIsCutOff`).
- An addition is let through with an id that has no device exactly when all ids were taken at its scan and a
  tracked close took a group out of use before its capacity check (`Ids.LargeIdsExactly`); a run ends with a
  group of id 10 (`Races.SomeGroupHasNoDevice`). Over runs without that, the library always finds the device
  of a group (`Session.OpeningAlwaysLeadsToTheGroup`); in any run it does exactly for the groups that have
  one.
- The library's reply is understood exactly for ids of at most eleven digits, or twelve when access is
  denied: the kernel reads 18 bytes of it. An allowing reply to a twelve-digit id is read as DENY
  (`Messages.ReplyRoundTrip`). Since the 32-bit counter is widened to an unsigned long, the ids of the
  second half of its turn have twenty digits, and no reply to them is understood
  (`Messages.OnlyEarlyIdsCanBeAnswered`, `Session.AnswerableExactly`).
- The listing is exact exactly when every id before the last entry has one digit and the last entry fits
  (`Listing.ListingIsExact`).
- The scan over a name in a command passes the terminating NUL (ctrl_dev.c:84), so a command with an empty
  name at its end reaches its handler although the code means to refuse it (`Control.LibraryCommand` holds
  for the empty name). Whatever the buffer holds behind the terminator, the scan stops inside it exactly when
  one of the copied bytes from the name on is neither allowed nor NUL (`CtrlDevice.ScanStaysInsideExactly`);
  no command of the library has such a byte (`CtrlDevice.LibraryCommandRunsOn`).
- A failed write-back leaves a page marked as up to date. Coherence is lost exactly when that page differs
  from the lower one (`PageCache.StepKeepsCoherence`).
- A write that meets stores not written back, in a page it touches or, when it ends at a page boundary, in
  the page behind it, takes that page's Uptodate flag (`PageCache.OnlyWritesDisturb`); the two layers are
  one memory for as long as this does not happen (`PageCache.RunsAreOneMemory`).

The model takes an unsigned long to have 64 bits and an int to have 32 (`CText`, `Kernel.AsUnsignedLong`): the
number of digits of an id, and so which replies are understood, depends on it.

Run `dafny verify dfyconfig.toml` in this directory.

## Model

| member | source | states |
|---|---|---|
| `Verdicts.RunsKeepInv` | event.c:149-1177 | after every run that closes tracked handles rightly, under any interleaving, the whole invariant holds, and no close in it lowered a count of zero |
| `Verdicts.RunsKeepCore` | event.c:149-1177 | after every run, whatever handles are closed, the core of the invariant holds: lists, accounts, group count, queues and ids; a run ends with the first step, if any, that frees a group under a call that holds it |
| `Verdicts.RunsKeepSafeInv` | event.c:830-849 | after every run in which no close lowers a tracking count of zero, every event and group that a step can follow is live, the container of a claimer or reposter apart |
| `Verdicts.SafeExactly` | event.c:333-341 | a run can be continued exactly if its last step did not free a group whose tracking count was negative |
| `Invariant.CoreIsSafeExactly` | event.c:177-208 | with the core, the only freed memory a step can reach is a group that a call still holds, and the claimed container |
| `Verdicts.SafetyExcludesNothing` | event.c:149-1177 | while no close lowers a tracking count of zero, asking for safety in a run rules out no enabled step |
| `Preservation.StepKeepsCore` | event.c:149-1177 | each of the 28 kinds of steps keeps the core of the invariant from every safe state |
| `Holding.StepKeepsUse` | event.c:800-931 | each of them keeps the use counts right, whatever handles are closed and whatever is freed |
| `Holding.StaysSafeExactly` | event.c:333-341 | from a safe state with such counts a step leads to a group freed under a call that holds it exactly if it frees one whose tracking count was negative |
| `Tracking.TrackCountAfter` | event.c:800-849 | the tracking count of a group rises by one exactly when a device of its id is opened and it tracks, and falls by one exactly when a tracked handle is closed under its id and it tracks |
| `Tracking.NegativeExactly` | event.c:839-842 | tracking counts become negative exactly by a close that finds a tracking group with none counted |
| `Races.SomeHeldGroupIsFreed` | event.c:323-364 | a run ends with a group freed under a process that waits for its events: a handle of a removed group was closed under the id of a group that nobody had opened |
| `Tracking.StepKeepsInv` | event.c:800-849 | each of them keeps the whole invariant if a tracked handle is closed under an id that still is its group's |
| `Verdicts.AssignedIsConserved` | event.c:653-690 | a live event's assigned count is the number of lists it is on plus the releases under way |
| `Verdicts.StepAdvances` | event.c:859-963 | answers only move forward, from queued to under way to given, or to removed; only a reply takes an event out of a group's queue |
| `Verdicts.ReplyIsToQueued` | event.c:895-931 | a reply that is accepted is to an event on the working list of the active group named, with the id named, that has not been answered |
| `Verdicts.ObjectionsAreReplies` | event.c:912-931 | at any point of a run, a group objects to an event exactly when some reply in the run denied it |
| `Answers.Verdict` | event.c:746-784 | over every run: an access that was posted returns -EPERM exactly when some reply was DENY; when it returns, each group active at its posting has either replied in exactly one step or never replied and is not active any more, and no other group has replied |
| `Answers.StatusTells` | event.c:885-931 | a group that was asked has replied in some step of the run exactly when it is no longer queued and was not removed first |
| `Example.SomeAccessIsRefused` | event.c:746-784 | a complete run: a group is added, its process claims the event and answers DENY, and the opener returns -EPERM |
| `Guarantees.VerdictIsFinal` | event.c:776-779 | once a posted event's assigned count is zero no step changes the count or the deny flag, whatever handles are closed |
| `Guarantees.OnlyTheOpenerFrees` | event.c:177-208 | an event is freed exactly by its opener's own release; the deprecated branch is never taken |
| `Guarantees.NoStrandedAccess` | event.c:220-260 | an event still assigned is on a list of an active group or about to be released |
| `Guarantees.ContainerIsLinkedExactly` | event.c:924-928 | the container that a claimer or reposter uses without the lock is on a list of its group exactly while that group still is asked |
| `Guarantees.ContainerUseIsEnabledExactly` | event.c:1156-1167 | the steps that use it have a meaning exactly then |
| `Example.SomeClaimIsCutOff` | event.c:948-963 | a run leads to a claimer whose container has been freed by a removal |
| `Outstanding.OutstandingAfter` | event.c:177-260 | the sum of all assigned counts rises by the active groups when an event is posted, falls by one with each release and by the lengths of the lists with each removal, and by nothing else |
| `Outstanding.NothingOutstanding` | event.c:220-260 | it is never negative, and zero with no active group and no release under way |
| `Drain.EveryAccessCanFinish` | event.c:477-501 | from every state in which the use counts are right and no tracking count is negative, some run of removals and of steps of callers that are already there, without any failing allocation, leads to a state where no event is assigned |
| `Drain.FinishOne` | event.c:420-501 | from every such state a caller holding the semaphore can go on until it has let go of it |
| `Guarantees.ContainersSuffice` | event.c:752-771 | at posting there is a container for every active group, and never more than GROUP_COUNT |
| `Guarantees.GroupCountIsExact` | event.c:454-458 | group_count is the number of active groups, less the one addition linked and not counted yet |
| `Guarantees.RemoveSkipsOnlyNothing` | event.c:485-486 | the early exit of a removal is taken exactly when there is no active group |
| `Groups.UseCountIsExact` | event.c:800-849 | after every run, a group's use count is its tracking count plus the calls that hold it |
| `Groups.TrackCountIsExact` | event.c:800-849 | while tracked handles are closed rightly, an active group's tracking count is its open tracked handles |
| `Groups.FreedGroupsAreUnused` | event.c:333-341 | whatever handles were closed, a group is freed only by a scan, after its removal, and then no call holds it exactly if its tracking count is not negative |
| `Groups.ActiveExactly` | event.c:420-501 | a group is active after a step exactly if the step linked it, or it was active and the step is neither a removal under its name nor the close of a tracked handle under its id when its tracking count is one |
| `Groups.CloseIsRightExactly` | event.c:830-849 | a close keeps the tracking counts right and removes the group exactly at its last handle, if and only if the id found is still that handle's group or tracks nothing |
| `Races.SomeCloseIsWrong` | event.c:830-849 | a run leads to a state in which closing a handle of a removed group takes the next group of that id out of use while another handle is open on it |
| `Guarantees.IdsRepeatAfterFullTurn` | event.c:666-667 | two posted events have the same id exactly when a multiple of 2^32 posts lies between them |
| `Guarantees.ReplyReachesItsEvent` | event.c:911-923 | during the first 2^32 posts the search for an event id finds an event exactly when the group is working on it, and finds that one |
| `Guarantees.FreshClaimsFollowPosting` | event.c:948-963 | an event nobody in the group has claimed is claimed only after all events posted to the group before it |
| `Devices.EnterExactly` | event.c:1130-1142 | a process that reads or polls takes hold of the active group with the id of its device, exactly if there is one; the use count of that group alone rises, by one, and nothing else changes |
| `Devices.ClaimsFromItsDevice` | event.c:1130-1172 | over every run, an event is claimed from the todo list of the active group with the id of the device read, which had that id when the caller came, and it is the first one there |
| `Devices.ClaimExactly` | event.c:948-963 | a claim is possible exactly while an event waits; it takes the first one and puts it first among those worked on |
| `Devices.HandBackExactly` | event.c:859-866 | an event handed back waits before all others of its group, and the order of the rest is kept |
| `Devices.ReturnExactly` | event.c:885-931 | a reply works on the active group with the id of its device and on nothing else: it unlinks or hands back an event of the id named exactly if the group works on one, and without such a group it changes nothing |
| `Ids.ScannedId` | event.c:429-435 | the id loop needs at most one walk more than there are active groups, says "exists" exactly for names in use, and yields an id with a device exactly when one is free |
| `Ids.LargeIdExactly` | event.c:429-448 | an addition passes its capacity check with an id that has no device exactly when all ids were taken at its scan and a tracked close took a group out of use in between |
| `Ids.LargeIdsExactly` | event.c:429-448 | over a whole run, additions pass with such an id exactly in those places |
| `Ids.IdsStaySmall` | event.c:429-448 | while none is overtaken in that way, every active group has an id with a device |
| `Ids.IdsStayBounded` | event.c:429-448 | in every run the ids go up to GROUP_COUNT at most |
| `Races.SomeGroupHasNoDevice` | event.c:420-462 | a run ends, with no call under way, in a state with an active group of id GROUP_COUNT |
| `ReleaseOnce.FreedByTheLastCall` | event.c:177-208 | for any order of the registered releases and the anonymous one, every proper prefix leaves the event alive with the verdict so far, and the last call frees it |
| `Kernel.ReleaseAllLowersEachCount` | event.c:220-234 | clearing a list lowers the count of each listed event by one, touches no other event and frees none whose opener still waits |
| `Kernel.RemoveGroupEffect` | event.c:249-260 | removing a group answers each event on its two lists once |
| `Kernel.CheckForGroupTidies` | event.c:323-364 | one walk frees only removed and unused groups, changes at most the tracking flag of the group of that name, and its result means what it says |
| `Kernel.ChooseIdIsLeastFree` | event.c:429-435 | the retry loop yields the least id no active group uses, after as many walks as ids tried, or reports that the name exists |
| `Kernel.ClaimThenUnclaimIsIdentity` | event.c:859-963 | claiming an event and handing it back after a failed open restores both lists |
| `Kernel.FindById` | event.c:896-903 | a search by id returns an active group of that id, and nothing only if there is none |
| `Kernel.FindByName` | event.c:490-496 | a search by name returns an active group of that name, and nothing only if there is none |
| `Kernel.FindEvent` | event.c:911-923 | a search by event id returns an event of that id, and nothing only if there is none |
| `EventLists.EventModule.ReleaseEvent` | event.c:177-208 | in place: the new events are those of `Kernel.Release` |
| `EventLists.EventModule.ClearEventList` | event.c:220-234 | in place: every entry is released once, from the front |
| `EventLists.EventModule.RemoveGroup` | event.c:249-260 | in place: the whole new state is that of `Kernel.RemoveGroup` |
| `EventLists.EventModule.CheckForGroup` | event.c:323-364 | in place: walking while unlinking gives the list, groups and result of `Kernel.CheckForGroup` |
| `EventLists.EventModule.ChooseId` | event.c:429-435 | in place: the retry loop gives the choice of `Kernel.ChooseId` |
| `EventLists.EventModule.AddGroup` | event.c:420-462 | in place: the whole new state and the result are those of `Kernel.AddGroup` |
| `EventLists.EventModule.RemoveByName` | event.c:477-501 | in place: the whole new state is that of `Kernel.RemoveByName`, unless there is no group |
| `EventLists.EventModule.FindGroup` | event.c:896-903 | the walk over the list finds the group of `Kernel.FindById` |
| `EventLists.EventModule.Enter` | event.c:1130-1139 | in place: the use count of the group of that id is raised at the entry where the walk stops |
| `EventLists.EventModule.AssignToGroups` | event.c:669-686 | the containers made earlier suffice: the index never leaves the array, each active group gets one, no other element is touched |
| `EventLists.EventModule.Post` | event.c:653-690 | in place: the whole new state is that of `Kernel.Post` |
| `EventLists.EventModule.ClaimEvent` | event.c:948-963 | in place: the first event of the todo list is moved to the front of the working list |
| `EventLists.EventModule.UnclaimEvent` | event.c:859-866 | in place: the event leaves whichever list it is on and comes to the front of the todo list |
| `EventLists.EventModule.ReturnEvent` | event.c:885-924 | in place: use count taken, event found and unlinked unless it is reposted, as `Kernel.ReturnEvent` has it |
| `EventLists.EventModule.OpenTracking` | event.c:800-820 | in place: both counts raised exactly if the group of that id tracks |
| `EventLists.EventModule.CloseTracking` | event.c:830-849 | in place: both counts lowered, and the group removed when its tracking count reaches zero |
| `Registry.ScanIsTrack` | event.c:429-435 | seen as a map from names, a scan changes nothing but the tracking flag of that name, and its id is used by no entry |
| `Registry.LinkIsInsert` | event.c:448-456 | seen as a map, linking a group adds one empty entry |
| `Registry.AddIsTrack` | event.c:420-462 | an addition fails exactly when the name is new and all ids are taken, and then changes nothing; an existing name keeps its entry |
| `Registry.AddIsInsert` | event.c:420-462 | a new name gets an empty entry under the least id not in use |
| `Registry.RemoveIsDelete` | event.c:477-501 | a removal deletes the entry of that name and nothing else |
| `Registry.LookupIsUnique` | event.c:807-817 | a lookup by id returns the one active group of that id, whatever removed groups share it |
| `Registry.PostIsBroadcast` | event.c:669-686 | posting appends the event to the todo list of every entry |
| `Simulation.StepIsMapStep` | event.c:149-1177 | from every state that keeps the core, each step is one step of the map: posting broadcasts, a scan tracks, links insert, removals delete, opening and closing count trackers and delete at the last, claims and returns move events; a claim is of the entry its caller holds, which `Devices.ClaimsFromItsDevice` ties to the device |
| `Recursion.OnlyMaskedAccessesAreSkipped` | event.c:572-596 | in every run an access goes unchecked exactly for a process whose open_file entry has not been used, and no entry outlives open_file |
| `Recursion.StepKeepsInv` | event.c:974-1041 | the list holds each masked process once and nobody else |
| `Recursion.ProcList.Check` | event.c:572-596 | in place: the first entry of the process is unlinked, and the result says whether there was one |
| `LockOrder.EveryCallIsOrdered` | event.c:177-1177 | on every path of every entry point, a fetch that gives up and whatever a registered process's own open comes to included, locks are taken in the order semaphore, process or ignore list, work_mutex, assigned_mutex; nothing is touched without its lock, and nothing is held during a sleep or at the end |
| `LockOrder.EveryCallTouches` | event.c:177-1177 | how often each entry point takes each lock and touches each of the shared data: a search, a scan, a link, a claim, a posting are one section each, and so is a removal with all its releases |
| `LockOrder.TouchesAreGuarded` | event.c:488-498 | wherever the groups and their queues, an event's account, or the masked or ignored processes are touched, the lock that guards them is held |
| `LockOrder.NoTwoTouch` | event.c:488-498 | in every state that any number of callers can reach, no two of them are about to touch the same data |
| `LockOrder.StepKeepsInv` | event.c:427-460 | no two callers hold a lock they must not share |
| `LockOrder.NoCyclicWait` | event.c:661-689 | no chain of callers waiting for one another's locks closes |
| `LockOrder.SomeHolderRuns` | event.c:752-776 | whoever waits for a lock, some holder of a lock is awake and can take a step |
| `LockOrder.RunsNeverLockUp` | event.c:177-1177 | both hold in every state any number of callers can reach |
| `CText.ValueOfDec` | group_dev.c:118-118 | a printed number consists of digits and has the value that was printed |
| `CText.FindIsFirst` | group_dev.c:115-126 | strstr returns the first match, and none only if there is none |
| `CText.IntsOfPrinted` | test/lib/dazukofs.c:187-197 | a printed int comes back through strtol and the cast, and through strtoul as C widens it |
| `CText.ScanExactly` | test/lib/dazukofs.c:185-197 | white space, a sign and digits are converted by strtol and strtoul, whatever follows |
| `CText.ConversionsExactly` | test/lib/dazukofs.c:185-197 | numbers that fit a long, or an unsigned long up to wrapping of negatives, are converted exactly, and others to the limit |
| `Messages.MessageFits` | group_dev.c:77-83 | a message is sent exactly when its three numbers have at most 29 characters between them |
| `Messages.EventMessageRoundTrip` | test/lib/dazukofs.c:177-197 | every message the kernel sends is parsed back to the same id, descriptor and pid, also at the length where the last newline is lost |
| `Messages.ReplyOutcome` | group_dev.c:108-132 | what the kernel makes of the library's reply, for every id: exact up to eleven digits, DENY at twelve, refused beyond |
| `Messages.ReplyRoundTrip` | test/lib/dazukofs.c:213-217 | the reply means what the library meant exactly for ids of at most eleven digits, or twelve when denying |
| `Messages.OnlyEarlyIdsCanBeAnswered` | event.c:666-667 | replies are exact while the 32-bit counter is not negative, and none is understood when it is |
| `Messages.ReplyExactly` | group_dev.c:108-132 | of whatever is written, 18 characters are looked at; it is refused exactly if "id=", or "r=" behind its digits, is missing; the id is the value of these digits, and the response ALLOW exactly if the one character behind "r=" is '0' |
| `Messages.ReplyLine` | group_dev.c:115-132 | a reply in the documented form means its id and its digit, with a newline or anything else behind it |
| `Messages.GroupRead` | group_dev.c:49-94 | bytes, position and every error code of a read, the conversions of -ERESTARTSYS and -ENFILE included; an event that was fetched is either delivered or handed back |
| `Messages.ReadReply` | group_dev.c:108-132 | the copying and the pointer walk give the id and response of `Messages.ParseReply` |
| `Messages.GroupWrite` | group_dev.c:96-143 | the call made and the result of a write, error cases included |
| `Control.LibraryCommand` | test/lib/dazukofs.c:78-84 | a command the library writes reaches exactly its handler, with exactly the name |
| `Control.CallsInOrder` | ctrl_dev.c:133-152 | whatever is written, each command is carried out at most once, in the order del, add, addtrack, with a name of allowed characters |
| `Control.CallsStopAtFailure` | ctrl_dev.c:133-157 | nothing is carried out after a failure; the result is that of the last call, or -EINVAL exactly if that did not fail and a later command's key is there without a name |
| `Control.NothingIsSkipped` | ctrl_dev.c:133-157 | if a write succeeds, every command whose key is left in the text has been carried out, and no key has come up that was not written |
| `Control.LookupExactly` | ctrl_dev.c:96-111 | a command is found at the first match of its key and means the longest run of allowed characters behind it, which may be empty only at the end of the text; the character behind the name becomes a blank |
| `Control.FirstBytes` | ctrl_dev.c:116-131 | exactly the first 31 bytes of a write are looked at |
| `CtrlDevice.Carried` | ctrl_dev.c:96-111 | the pointers of process_command find the first key and the longest name after it, wherever the scan stops |
| `CtrlDevice.ProcessCommand` | ctrl_dev.c:89-114 | in place: the handler gets exactly that name as a string, and at most one byte is another one afterwards: a blank where a scan stopped |
| `CtrlDevice.CtrlWrite` | ctrl_dev.c:116-160 | in place: the handlers called, the result and the position are those of `Control.Commands` on the bytes taken, and nothing behind the character that stops the scans is touched |
| `CtrlDevice.ScanStaysInsideExactly` | ctrl_dev.c:102-103 | whatever the unwritten rest of the buffer holds, a scan stops inside it exactly when one of the copied bytes from there on is neither allowed nor NUL |
| `CtrlDevice.DelimitedWrite` | ctrl_dev.c:116-131 | a write whose last delimiter comes after all its keys meets what `CtrlWrite` asks, whatever is in or behind the rest of the buffer |
| `CtrlDevice.LibraryCommandRunsOn` | test/lib/dazukofs.c:78-84 | a library command is never such a write: its scan ends exactly if some byte that nobody has written stops it |
| `Listing.ListingIsExact` | event.c:536-546 | in a buffer of any size that the code takes for large enough, the listing is the concatenation of "id:name" lines in list order exactly when every id before the last entry has one digit and the last entry fits |
| `Listing.GetGroups` | event.c:515-555 | the sizing loop ends, no snprintf leaves the buffer, and the listing is that of the list at the first attempt whose buffer suffices for it, however the list changes between attempts |
| `Listing.PrintGroups` | event.c:537-545 | after each entry the buffer holds the entries so far, each cut to the room reserved for it but the last |
| `Listing.PiecesMakeTheListing` | ctrl_dev.c:66-77 | reads of any lengths from position 0 concatenate to the listing, up to what was asked for |
| `Listing.ControlFile.Read` | ctrl_dev.c:51-78 | the snapshot is taken once, each read returns the next piece of it, and a failed copy or allocation moves nothing |
| `Listing.MatchesAreColons` | test/lib/dazukofs.c:93-96 | the search key of a name matches what is printed exactly at the colon of the entries of that name that are printed whole, also where an entry is cut |
| `Listing.LookupIsLastDigit` | test/lib/dazukofs.c:96-103 | for ids of one or two digits, the library reads the last digit of the id of the group of that name if its entry is printed whole, and finds nothing otherwise |
| `Listing.LookupFindsTheGroup` | test/lib/dazukofs.c:96-103 | the digit read is the id of the group exactly when the id has one digit |
| `Library.CheckGroupName` | test/lib/dazukofs.c:40-54 | accepts exactly the names of at most 20 allowed characters |
| `Library.Open` | test/lib/dazukofs.c:56-103 | the command written and the id found, for every outcome of opening, writing and reading the control device; all strings fit the 256 and 25 byte buffers |
| `Library.OpeningFindsTheGroup` | test/lib/dazukofs.c:89-103 | for up to ten groups with accepted names and ids as the kernel gives them, the id read out of what the kernel prints is that of the group of that name exactly when the id is below GROUP_COUNT |
| `Library.OpeningFindsNothing` | test/lib/dazukofs.c:89-103 | a name that no active group has is not found |
| `Library.Handle.GetAccess` | test/lib/dazukofs.c:171-204 | the event id and access are those of `Messages.ParseEvent` on the zeroed buffer |
| `Library.Handle.ReturnAccess` | test/lib/dazukofs.c:206-217 | the reply written, in full, for every id of an unsigned long, and the result, also when closing the file or the write fails |
| `Library.Handle.Close` | test/lib/dazukofs.c:136-169 | the command written when the group is to go, and the result, for every outcome of the device calls |
| `Session.AnswerableExactly` | group_dev.c:108-132 | the reply to a posted event is understood exactly while its place in the order of posting is in the first half of a turn of the counter |
| `Session.DecisionReachesItsEvent` | event.c:885-931 | during the first 2^31 posts the library's decision on an event its group works on reaches exactly that event, as that decision |
| `Session.OpeningLeadsToTheGroup` | test/lib/dazukofs.c:56-103 | in every run in which groups are added by the library, its search for an active group's name leads to that group's device exactly if there is one |
| `Session.OpeningAlwaysLeadsToTheGroup` | test/lib/dazukofs.c:56-103 | it always does in runs where no addition is overtaken by a tracked close |
| `PageCache.MarkedPagesAreTouched` | file.c:94-116 | the pages marked are those the written bytes lie in, and the next one when the last byte ends a page |
| `PageCache.StepKeepsCoherence` | file.c:133-157 | every clean page that is up to date equals the lower page after every step, except exactly after a failed write-back of a page that differs |
| `PageCache.RunsKeepCoherence` | mmap.c:38-148 | over any run of writes, faults, stores, write-backs and evictions without such a failure, what is mapped from clean pages is what read returns |
| `PageCache.StepIsOneMemory` | file.c:121-160 | writes and stores change the bytes they name of one memory and nothing else changes any, exactly unless a write differs from stores not written back or a write-back of changes fails |
| `PageCache.OnlyWritesDisturb` | file.c:104-113 | a page with stores not written back loses its Uptodate flag exactly by a write that marks it |
| `PageCache.RunsAreOneMemory` | mmap.c:101-148 | over a run where this does not happen, the two layers are one memory, and every page that can be loaded from holds its bytes |
| `PageCache.ReadsLagExactly` | file.c:64-87 | over such a run read gives the byte last written or stored at a position exactly when that is not a store still to be written back |
| `PageCache.FillExactly` | mmap.c:38-93 | filling a page succeeds exactly if the lower page could be had; then the page is up to date, holds its bytes and can be stored to everywhere; its dirty flag, the other pages and the lower file stay |
| `PageCache.WriteBackExactly` | mmap.c:101-148 | writing a page back brings exactly its bytes to the lower file and leaves it up to date, or changes nothing but the dirty flag |
| `PageCache.WriteSizes` | file.c:146-157 | a write makes the file, in both layers, as long as its last byte asks, and never shorter |
| `PageCache.SizesAgree` | file.c:156-156 | over every run the upper file is as long as the lower one |
| `PageCache.MappedFile.MarkPagesOutdated` | file.c:94-116 | in place: exactly the cached pages of the interval lose their flag |
| `PageCache.MappedFile.Write` | file.c:121-160 | in place: position from the returned value, marking, and the sizes of both layers, which agree whatever the lower file system answers |
| `PageCache.MappedFile.Read` | file.c:64-87 | each byte delivered is that of the lower file at its position, and both positions move with what the lower file system says |
| `PageCache.MappedFile.FillPage` | mmap.c:38-93 | in place: up to date with the lower bytes exactly if the lower page was read and both pages mapped, and otherwise not up to date |
| `PageCache.MappedFile.WriteBack` | mmap.c:101-148 | in place: the lower page is overwritten and the page up to date, or nothing but the dirty flag changes; clean either way |

## Left out

- A container is represented on a list by the event it points to. Three steps are guarded by the
  container still being on a list of its group (after a claim, on both outcomes of opening the file, and
  on REPOST): the code has no meaning if it was freed in between. When that is so is proved.
- Containers that a tracked close leaves unposted (event.c:761-771) are not claimed to be freed; only the
  bound on the array index is proved.
- `Verdicts.RunsKeepInv`: is for runs in which the id of a tracked handle that is closed has not passed to
  another group that tracks; `Groups.CloseIsRightExactly` and `Races.SomeCloseIsWrong` show that this cannot be
  dropped. So are `Tracking.StepKeepsInv` and `Groups.TrackCountIsExact`.
- `Verdicts.RunsKeepSafeInv`: is for runs in which no close lowers a tracking count of zero, which
  `Races.SomeHeldGroupIsFreed` shows to be needed. So are `Verdicts.SafetyExcludesNothing`,
  `Drain.EveryAccessCanFinish` and `Drain.FinishOne`. All other results over runs are for every run.
- What happens after a group has been freed under a call that holds it, even if the call never follows the
  pointer again: a run ends there.
- `group_count++` (event.c:458, without `work_mutex`) and `group_count--` (event.c:252, without the semaphore when
  a tracked close removes the group) are each one atomic step.
- `EventLists.EventModule.AddGroup`: has nothing between its critical sections and no failing allocation;
  `Protocol` has both.
- `Registry.RemoveIsDelete`: asks that no event is marked deprecated, which holds in every reachable state.
- `EventLists`: the two slab caches are maps from addresses to values, so aliasing is through the address;
  an address is never given out again.
- `CtrlDevice.CtrlWrite`: asks for a character behind all keys that stops the scans; a scan that runs off the
  end of memory has no meaning.
- `Library.OpeningFindsTheGroup`: is for names the library accepts; other writers of the control device can
  create longer names.
- `LockOrder`: a caller waits only for holders; which of several waiting callers gets a free lock is open.
  Locks of the virtual filesystem are not part of this model.
- `PageCache`: loads and stores reach a page through a fault; a translation still in the page table of a
  process is not modelled, nor are truncation and other attribute changes. A lower write changes only the
  bytes it reports.
- The ignore list, whether a process is to be checked, process ids, descriptors and the opening of the file
  are free choices of the environment.
- Failing allocations appear only as "returns an error, state unchanged".
- What a poll reports is left out; that it takes and releases its hold on the group is part of the protocol.
- Waiting is a step enabled when its condition holds; wake-ups, the freezer and signals are not modelled
  beyond a fetch that gives up.
- Forwarding to the lower filesystem (inode.c, dentry.c, super.c and most of file.c), reference counts of
  dentries and mounts, device registration and module start and end.
