# luhmen: verified models of its protocols, parsers and codecs

luhmen runs Docker inside one Linux VM on a Mac. Most of it starts other programs; a few
parts carry protocols, parsers or arithmetic of their own, and those are modelled here.

- **Guest shutdown helper** (`guest/docker-shutdown.rs`). Before the VM is powered off, the
  helper turns Docker's live restore off by editing `daemon.json`, reloads the daemon, puts the
  file back, and stops Docker. It has its own JSON scanner, an edit that must change one member
  and nothing else, and a protocol over the file, a backup and the daemon that must survive a
  crash between any two effects. `JsonGrammar` holds the grammar as trees with their printers,
  `JsonParser` reads texts by position, `JsonScanner` is the cursor class itself, and
  `JsonStrings`, `JsonNumbers` and `JsonRoundTrip` prove that reading and printing are inverse.
  `JsonRfc` states the grammar of RFC 8259 sections 2, 4, 5, 6 and 7, what its escapes stand for
  and how its texts are written, all on its own (UTF-8 as in RFC 3629 section 4), and
  `JsonExtensions` says which accepted texts are in it. `DockerConfig` says what the edit means
  and `ConfigEditor` performs it on bytes. `ShutdownLog` is the history of the protocol: every
  effect, every answer and every edit by another program, what the two files hold after them,
  and which may follow which. `ShutdownCauses` says which of these events are a reason to fail, and
  where the helper asks for them. `DockerShutdown` is the protocol itself, a class whose files always
  hold what its history says, and whose every effect and question may fail, be interrupted by
  any edits, or be the last one before a crash. Other programs' edits are a sequence `script`
  given beforehand, of which any part may happen at any step; the results hold for every script,
  and `script == []` says that nobody else edits.
- **microVM manager** (`scripts/microvmd.sh`). `MicrovmManager` models `create`, `start` and
  `stop` with admission, identities, the rollback of failed starts and the private disk. VMMs die,
  guests write, accounts change and the manager is interrupted or killed at every step; with
  `sturdy` a VMM ends only by a signal that the manager sends. What
  guests write is a sequence given beforehand, so a disk's bytes are its image with exactly those
  writes that came after it became a disk.
- **Disk accounting** (`src/storage.rs`). `FileTree` says what is reachable in any file graph and
  what it adds up to; `StorageWalk` walks it with the budgets of the source, in any order and with
  or without failing questions.
- **Gateway** (`src/gateway.rs`). `GatewayBody` has the growing upload buffer and the
  limited response stream; `GatewayBudget` has the permits and the counted references that keep
  uploads within 128 MiB; `HopHeaders` removes the hop-by-hop headers.
- **Template update** (`src/runtime.rs`). `TemplateUpdate` publishes two files in order so that a
  cut-short update can be finished by the same CLI, with other programs' edits as above.
- **Docker arguments** (`src/docker_args.rs`). `DockerArgs` compares the option loop with a parser
  written from the rules of Docker's non-interspersed flags, over a table of Docker's options by
  purpose in `DockerFlags`, in which a short option is the shorthand of a long one.
- **Codecs** (`build.rs`, `src/microvm.rs`). `Base64` and `RequestLine` prove round trips against
  RFC 4648 section 4, RFC 2045 section 6.8 and the shell's request loop.

`Outcomes`, `Steps`, `Sums` and `Utf8` hold what several of them need. A Rust `?` is `:-` here.
A step of a process ends as `Done`, `Fault` or `Killed`; after `Killed` nothing more is done.

Safety is proved for any faults and kills. So that it is not met by a program that never
succeeds, the models also say when success must come: with `reliable` (and `plenty` of memory in
the gateway, not `faulty` in the disk walk) no step fails or is killed, and then a run that does
not succeed has its reason in the files, in the records, or in what Docker, its daemon or a VMM
was seen to do.

Where the code is more generous than what surrounds it, an input and the exact condition are
results. The scanner accepts a form feed as white space and a leading `+` in a `\u` field
(`JsonExtensions.FormFeedIsAnExtension`, `PlusIsAnExtension`); an accepted text is one of RFC 8259
if and only if it has neither (`AcceptedIsRfcIff`). The option loop accepts `-t=`, which the flag
parser refuses (`DockerArgs.DanglingIsAccepted`, `AcceptedOptionsAgree`). The client takes a
vertical tab as white space and the shell does not (`RequestLine.VerticalTabIsRefused`,
`ClientAndGuestAgree`). A path that `validate_guest_path` accepts can be too long for a request
(`RequestLine.PrintedCreateIsSent`).

`dafny verify dfyconfig.toml` checks the whole project.

## Model

| member | source | states |
|---|---|---|
| JsonRoundTrip.AcceptedIffPrinted | guest/docker-shutdown.rs:291-332 | a text is accepted with a tree if and only if it is the printed form of that tree and the tree is in the grammar |
| JsonRoundTrip.DocumentSound | guest/docker-shutdown.rs:291-332 | whatever is accepted is the printed form of a legal tree, byte for byte |
| JsonRoundTrip.DocumentComplete | guest/docker-shutdown.rs:291-332 | every legal tree is read back from its printed form |
| JsonRoundTrip.ValueSound | guest/docker-shutdown.rs:105-175 | an accepted value is in the grammar and reading stops exactly at its end |
| JsonRoundTrip.ValueComplete | guest/docker-shutdown.rs:105-175 | every value within the depth limit is read from its printed form up to its last byte, whatever legal text follows |
| JsonRoundTrip.MembersComplete | guest/docker-shutdown.rs:299-325 | members with distinct decoded keys are all read, with their white space |
| JsonNumbers.NumberSound | guest/docker-shutdown.rs:177-227 | an accepted number has the parts of the grammar and ends where reading stops |
| JsonNumbers.NumberComplete | guest/docker-shutdown.rs:177-227 | every number of the grammar is read whole when nothing that extends it follows |
| JsonStrings.StringSound | guest/docker-shutdown.rs:76-103 | an accepted string is a legal escaping of the text it decodes to |
| JsonStrings.StringComplete | guest/docker-shutdown.rs:76-103 | every legal escaping is read as it was spelled, up to its own closing quote |
| JsonRfc.AcceptedGrammar | guest/docker-shutdown.rs:61-332 | the accepted trees are those of RFC 8259 widened by the form feed and the plus sign, within the depth limit, with distinct decoded keys and paired surrogates |
| JsonRfc.RfcTextsAreAccepted | guest/docker-shutdown.rs:291-332 | an object text of RFC 8259, printed as the standard says, of any depth and with any keys and escapes, is accepted as its tree if and only if it is within the depth limit, has distinct decoded keys and no lone surrogate |
| JsonRfc.SpelledTextIsRead | guest/docker-shutdown.rs:231-289 | any text, with every character spelled as itself, by its short escape, by a \u field or by a surrogate pair, as RFC 8259 section 7 lists them, is read back as itself |
| JsonRfc.DocumentIsBytes | guest/docker-shutdown.rs:61-332 | the printed form of a tree, here and in every row above, is the text that RFC 8259 and UTF-8 prescribe for it |
| JsonRfc.AcceptedTextHasOneTree | guest/docker-shutdown.rs:291-332 | a text is the printed form of one legal tree only |
| JsonExtensions.DocumentPasses | guest/docker-shutdown.rs:76-103 | a scan of the bytes finds the form feeds and the plus signs that the tree has |
| JsonExtensions.AcceptedIsRfcIff | guest/docker-shutdown.rs:291-332 | an accepted text is a text of RFC 8259 if and only if it has no form feed and no \u field that starts with a plus sign in its tree |
| JsonExtensions.ScanDecides | guest/docker-shutdown.rs:291-332 | for every accepted text, a scan of its bytes for these two decides whether it is a text of RFC 8259 |
| JsonExtensions.FormFeedIsAnExtension | guest/docker-shutdown.rs:61-65 | a form feed between tokens is accepted although RFC 8259 does not allow it |
| JsonExtensions.PlusIsAnExtension | guest/docker-shutdown.rs:255-260 | a \u field with a leading plus sign is accepted although RFC 8259 does not allow it |
| JsonRfc.EscapedStandsForItself | guest/docker-shutdown.rs:255-283 | the surrogate arithmetic inverts the escape of every Unicode scalar |
| JsonRfc.EscapedTextIsReadBack | guest/docker-shutdown.rs:231-289 | any text written entirely in \u escapes is read back |
| JsonScanner.DecodeJsonString | guest/docker-shutdown.rs:231-289 | the decoding loop returns the characters of the pieces between the quotes, or the same error |
| JsonScanner.Json.Whitespace | guest/docker-shutdown.rs:61-65 | the cursor moves to the first byte that is not white space |
| JsonScanner.Json.String | guest/docker-shutdown.rs:76-103 | the cursor ends after the closing quote and the key is the decoded text |
| JsonScanner.Json.Number | guest/docker-shutdown.rs:177-227 | the cursor ends at the end of the number the reader finds |
| JsonScanner.Json.Value | guest/docker-shutdown.rs:105-175 | success, failure, boolean and end position are those of the reader, at any depth |
| ConfigEditor.Locate | guest/docker-shutdown.rs:291-332 | the position and kind of the wanted member, the closing brace and whether there are members, as in the tree |
| ConfigEditor.ReadBooleanField | guest/docker-shutdown.rs:334-343 | the boolean under a key of the tree, nothing, or an error for another type |
| ConfigEditor.DisableLiveRestore | guest/docker-shutdown.rs:345-367 | the byte splice is the printed form of the edited tree, with the same errors |
| ConfigEditor.EditedBytes | guest/docker-shutdown.rs:348-362 | overwriting the value, or inserting before the brace with a comma when needed, prints the edited tree |
| DockerConfig.DisabledKeepsTheRest | guest/docker-shutdown.rs:345-367 | the result is accepted again; only live-restore changes; other members keep bytes and order; editing again changes nothing |
| DockerConfig.DisabledReadsFalse | guest/docker-shutdown.rs:345-367 | the result reads as live restore off |
| DockerConfig.FieldMeaning | guest/docker-shutdown.rs:334-343 | a field reads as true or false exactly when the bytes of its value are these words, as nothing when there is no member, and as an error for any other value |
| DockerConfig.NamesAreSpelled | guest/docker-shutdown.rs:345-367 | the key, the three words and the member that is added are the texts in the source |
| DockerConfig.SettingIsReadable | guest/docker-shutdown.rs:334-367 | a configuration that can be edited has a setting that can be read |
| DockerConfig.DisabledConfigsAgree | guest/docker-shutdown.rs:345-367 | two files with the same temporary copy have the same other members |
| DockerConfig.ReplacedIsDisabled | guest/docker-shutdown.rs:348-354 | overwriting the located bytes with false turns live restore off in the tree |
| DockerConfig.InsertedIsDisabled | guest/docker-shutdown.rs:355-362 | inserting the member before the closing brace turns live restore off in the tree |
| ShutdownLog.LawfulAt | guest/docker-shutdown.rs:410-440 | in a lawful history every event was allowed in the state that the events before it left |
| ShutdownLog.LawfulHistory | guest/docker-shutdown.rs:410-440 | in any history the configuration changes only by other programs' edits and by swapping the backup's bytes with their edited copy; a backup is never overwritten, holds what was read, and goes only when its bytes were the last ones seen in place and the daemon settled since they were put there; every stop was safe |
| ShutdownLog.SettledSince | guest/docker-shutdown.rs:603-614 | what settles the daemon in the later part of a run settles it in the whole run |
| ShutdownLog.StoppedIsDown | guest/docker-shutdown.rs:667-691 | a clean stop settles the daemon for every configuration |
| DockerShutdown.Guest.constructor | guest/docker-shutdown.rs:14-15 | a machine on which no shutdown has run is recoverable and has an empty history |
| DockerShutdown.Guest.WriteTemporary | guest/docker-shutdown.rs:375-408 | the first free number under this process's pid gets a complete copy; no other temporary is touched |
| DockerShutdown.Guest.ReplaceFile | guest/docker-shutdown.rs:410-431 | the file is swapped only when it held the expected bytes; an edit by another program is refused and nothing is written; without edits only the system can stop it |
| DockerShutdown.Guest.SaveBackup | guest/docker-shutdown.rs:433-440 | an existing backup is never overwritten and a new one is complete |
| DockerShutdown.Guest.RestoreFile | guest/docker-shutdown.rs:585-601 | success means that the original was seen or put in place; another program's bytes are refused and neither file is written |
| DockerShutdown.Guest.ReloadConfig | guest/docker-shutdown.rs:531-553 | success means that the daemon last reported the expected setting; a reliable reload fails only when the service was not active enough where a reload was due, or the daemon, asked until the end, never followed |
| DockerShutdown.Guest.RestoreRuntime | guest/docker-shutdown.rs:603-614 | success means that the daemon was seen, during this call, down or following the original file; a reliable call succeeds exactly then |
| DockerShutdown.Guest.RecoverBackup | guest/docker-shutdown.rs:616-626 | success leaves no backup and, without edits, the original file; a foreign edit leaves the backup as it was and writes nothing; a reliable run without edits always puts the file back, and succeeds exactly when there was no backup or the daemon settled after that |
| DockerShutdown.Guest.SwitchOff | guest/docker-shutdown.rs:654-660 | a restoration that is owed has its image in the backup and its edited copy at hand; success always owes one |
| DockerShutdown.Guest.TurnOff | guest/docker-shutdown.rs:651-665 | success means that live restore was seen off with the main process unchanged; without edits a configuration is refused only for the error it has |
| DockerShutdown.Guest.StopServices | guest/docker-shutdown.rs:667-691 | the stop is issued only when safe, and success means service and socket inactive and no shims |
| DockerShutdown.Guest.FinishRestoration | guest/docker-shutdown.rs:695-708 | success leaves no backup, which may go only after the file is back and the daemon is stopped, down or in agreement since; a foreign edit keeps the backup and writes nothing; a reliable run without edits always puts the file back, and succeeds exactly after a clean stop or when the daemon settled after that |
| DockerShutdown.Guest.Conclude | guest/docker-shutdown.rs:695-708 | the restoration never turns a failure into a success, and in a reliable run without edits no success into a failure |
| DockerShutdown.Guest.Shutdown | guest/docker-shutdown.rs:628-709 | whatever others edit, the files hold what a lawful history says; success means a clean stop and no backup; a run refused because of Docker has removed the backup and, without edits, put the file back; a reliable run without edits always ends with the original file, succeeds exactly when Docker was seen to stop cleanly, and otherwise shows in its history why the stop was not possible, or the file was unusable |
| DockerShutdown.AnyHistory | guest/docker-shutdown.rs:585-709 | over any number of failed or killed runs and any edits the history is lawful and says what both files hold; without edits the first file is in place or in the backup, and one reliable recovery by a process with a new number restores it, whatever the daemon does, and succeeds exactly when there was no backup or the daemon settled |
| DockerShutdown.Host.StopLocked | src/runtime.rs:606-653 | power-off without force is requested only after a clean guest shutdown, and when neither host nor guest fails exactly after one; force leaves the guest's files alone; when no host command fails, power-off is requested exactly when it should be and the result is what the VM's status says |
| MicrovmManager.UsedShrinks | scripts/microvmd.sh:148-165 | dying VMMs and unrelated changes never raise what is used |
| MicrovmManager.AdmitsOneMore | scripts/microvmd.sh:177-181 | recording one VM for which there was room keeps both sums within the parent, and counts it once |
| MicrovmManager.RecordKeepsAdmission | scripts/microvmd.sh:261-268 | a state file that may be written keeps the admission bound |
| MicrovmManager.RunningRecordable | scripts/microvmd.sh:397-508 | a VM admitted earlier may still be recorded as running after its VMM is up |
| MicrovmManager.StageInstalled | scripts/microvmd.sh:428-433 | a finished copy becomes a disk that holds the whole image and belongs to one VM; other disks stay what they were |
| MicrovmManager.DisksWritten | scripts/microvmd.sh:439-447 | a guest's write reaches its VM's disk, and every disk still holds its image with the writes since it became a disk |
| MicrovmManager.StagedStays | scripts/microvmd.sh:427-433 | no guest writes an unfinished copy |
| MicrovmManager.Manager.constructor | scripts/microvmd.sh:25-26 | a manager without VMs satisfies every invariant |
| MicrovmManager.Manager.RunningResources | scripts/microvmd.sh:148-165 | the totals lie between the true sums at the end and at the start of the loop |
| MicrovmManager.Manager.CheckStartResources | scripts/microvmd.sh:177-181 | success means room; refusal means that the sums at the start left none |
| MicrovmManager.Manager.IdentityInUse | scripts/microvmd.sh:183-197 | true exactly when an account, a group or a VM has the number |
| MicrovmManager.Manager.AllocateIdentity | scripts/microvmd.sh:199-207 | the least free number, and none exactly when all 1000 are taken |
| MicrovmManager.Manager.WriteState | scripts/microvmd.sh:261-268 | the state file is replaced whole or not at all |
| MicrovmManager.Manager.CopyImage | scripts/microvmd.sh:428-430 | only a finished copy holds the whole image |
| MicrovmManager.Manager.MakeOverlay | scripts/microvmd.sh:427-434 | an existing disk is kept; a new one appears complete or not at all; no other VM is touched |
| MicrovmManager.Manager.BuildJail | scripts/microvmd.sh:435-447 | the jail links to the VM's own disk; no other jail is touched |
| MicrovmManager.Manager.Launch | scripts/microvmd.sh:461-490 | the new VMM runs in its VM's cgroup and is in no record, so nothing else starts to count; nothing else ends but by itself; a reliable start fails only when that VMM died, and never when none dies by itself |
| MicrovmManager.Manager.CleanupStart | scripts/microvmd.sh:223-246 | exactly what this process made is gone: its unfinished copy and its jail, and no disk; what its cgroup runs gets the signals, and no VMM of another VM |
| MicrovmManager.Manager.Identify | scripts/microvmd.sh:416-423 | a VM without an identity gets the least free one and forgets its VMM; a VM with one keeps its record as it is |
| MicrovmManager.Manager.Start | scripts/microvmd.sh:397-508 | invariants, disks and identities are kept and no other VM's record, jail, copy or VMM is touched; a VM that runs is left as it is, with success; success otherwise exposes the VM's own disk and records the one new VMM, its cgroup and its identity; failure leaves no new copy or jail behind, and a refusal without a new VMM leaves disks, jails and copies as they were and no more than an identity in the record; every refusal is justified by the records, the files, the parent or a VMM that died, and a reliable start has no other |
| MicrovmManager.Manager.Create | scripts/microvmd.sh:381-396 | success adds one VM with the least free identity and nothing else; each refusal has its cause and changes nothing; a reliable request is refused exactly for these, in the order of the checks |
| MicrovmManager.Manager.TerminateGroup | scripts/microvmd.sh:111-133 | success means that nothing runs in the cgroup any more; nothing outside it gets a signal |
| MicrovmManager.Manager.Stop | scripts/microvmd.sh:509-541 | success changes the status in the VM's record and nothing else there, removes its jail when a VMM was recorded, and leaves nothing in the cgroup that its record names under this manager's parent; a refusal changes no record and no jail; a reliable stop fails only for a missing VM or state, or while something lives in that cgroup; no other VM's record, jail or VMM is touched |
| MicrovmManager.Manager.Serve | scripts/microvmd.sh:323-563 | over any requests, failures and kills the invariants hold, no VM loses its disk, identity or creation settings, and VMs that no request names keep their records, their jails and, unless these end by themselves, their VMMs |
| MicrovmManager.AnyRequests | scripts/microvmd.sh:323-563 | from no VMs, any requests and any guest writes leave an admitted set of recorded VMMs, distinct identities, private disks that hold their image with the writes since, and jails that link to their own VM's disk |
| FileTree.ExploredHoldsReachable | src/storage.rs:235-319 | an explored set with the root holds everything reachable |
| FileTree.WholeTree | src/storage.rs:235-319 | after a complete walk the files seen are the reachable ones and the entries are those of the reachable directories |
| FileTree.PartlyDirectory | src/storage.rs:296-297 | a completely walked subdirectory extends the walk of its parent |
| FileTree.TotalIsWhole | src/storage.rs:254-316 | the entries of directories, counted by kind, are all their entries |
| FileTree.SumsOfFiles | src/storage.rs:298-314 | sums over everything seen are sums over the files seen |
| FileTree.SeenIsReachable | src/storage.rs:235-319 | a walk that has seen only reachable nodes counts no more than them |
| StorageWalk.CountableHasNoReason | src/storage.rs:217-319 | a tree on one device, not too deep, with every directory in one place and sums below the limits, gives no reason for any problem |
| StorageWalk.DirectoryHasReason | src/storage.rs:243-249 | a directory that was visited before has two places in the tree |
| StorageWalk.Walk.Error | src/storage.rs:206-215 | at most 32 messages are kept, every further one is counted, each has its reason, and the walk is no longer complete |
| StorageWalk.Walk.WithinBudget | src/storage.rs:217-233 | a walk that goes on has entries left; one that stops is incomplete |
| StorageWalk.Walk.CountEntry | src/storage.rs:284-317 | an entry raises the entry count and the counter of its kind by one, and no other |
| StorageWalk.Walk.SeeFile | src/storage.rs:298-314 | a new file adds its sizes exactly once unless a 64-bit sum would overflow, which is an error |
| StorageWalk.Walk.Entry | src/storage.rs:273-317 | every entry without a problem goes to its own counter: a file to files once and then to hard links, a symlink to symlinks, anything else to others; a subdirectory is entered from one place |
| StorageWalk.Walk.Directory | src/storage.rs:235-319 | the recursion ends, and a complete one has walked the directory wholly |
| StorageWalk.Walk.Scan | src/storage.rs:155-195 | a complete walk equals the set sums, and its counters equal the numbers of entries of each kind in the reachable directories; without faults they do so on every tree within the limits, complete or not; any walk is bounded by them, by the entry limit and by the error limit; every problem has its reason, so without faults the walk of a countable tree is complete; a path that leads to nothing is found missing, completely and without an error, unless the question fails |
| GatewayBody.TwelveGrowthsSuffice | src/gateway.rs:710-721 | doubling from 4 KiB reaches the limit in twelve growths |
| GatewayBody.GrowthRaisesFloor | src/gateway.rs:710-721 | each growth raises the least capacity, and doubles the buffer unless it reaches the limit |
| GatewayBody.GrowthIsMeasured | src/gateway.rs:710-721 | a growth makes room for 4 KiB and twice the old capacity as far as the limit goes, and asks for no more than these or the need |
| GatewayBody.Buffer.Grow | src/gateway.rs:714-721 | the bytes move to a larger buffer of the chosen capacity; only without memory do they stay |
| GatewayBody.CollectBody | src/gateway.rs:699-725 | with enough memory it succeeds exactly on unbroken bodies of at most 8 MiB; it returns the concatenation, grows at most 12 times, copies less than 16 MiB and reserves at most 4 KiB or twice what the body holds, and each error has its cause |
| GatewayBody.Streaming.PollFrame | src/gateway.rs:124-163 | the answer is that of the first frame that is not a trailer, or that there is none yet or none at all; data is passed on in order and never beyond 8 MiB; the size error means that the body is larger |
| GatewayBudget.SumBounded | src/gateway.rs:38-45 | exchanges that hold at most 16 MiB each hold that times their number |
| GatewayBudget.Budget.WithinBudget | src/gateway.rs:38-45 | in every valid state all upload bytes together are at most 128 MiB |
| GatewayBudget.Budget.Admit | src/gateway.rs:518-524 | a request is admitted exactly when a permit is free, and takes it |
| GatewayBudget.Budget.Release | src/gateway.rs:71-89 | with the last reference the exchange is gone, its permit is free and no upload bytes are left; otherwise one reference goes |
| GatewayBudget.Budget.Happen | src/gateway.rs:91-118 | every event of handler, upstream task and transport has its effect on that exchange alone; counting step by step gives one reference per holder, and the permit returns exactly when no holder is left |
| GatewayBudget.DropsRemove | src/gateway.rs:71-118 | a drop ends its holder, with the references that it had, and ends or makes no other |
| GatewayBudget.BytesMove | src/gateway.rs:705-725 | a growth adds the new buffer and then frees the old one; sending, passing on, cloning and answering keep the upload's bytes |
| GatewayBudget.AllDropped | src/gateway.rs:71-118 | after any events, once everything alive of every exchange is dropped, every permit is free and no exchange is left |
| GatewayBudget.AnyEvents | src/gateway.rs:510-623 | after any events free permits plus live reservations make up the budget, every reference has its holder, and upload bytes stay within 128 MiB |
| HopHeaders.StripHopHeaders | src/gateway.rs:641-665 | exactly the fixed headers and those that a Connection header names are gone; the others keep their values |
| HopHeaders.StrippedIff | src/gateway.rs:641-665 | a header is left, with its values, if and only if it is none of the nine fixed ones and no part of a Connection list names it, in any letters and with blanks around it |
| HopHeaders.StrippingTwiceIsOnce | src/gateway.rs:641-665 | nothing that is left is hop-by-hop |
| HopHeaders.ListedNamesAreNamed | src/gateway.rs:642-648 | every name in a comma-separated list counts, in any letters and with blanks around it |
| TemplateUpdate.LawfulHistory | src/runtime.rs:496-509 | in any history, besides other programs' edits, the template changes only from the baseline to what has its CLI's provisioning and the rest of the baseline, and the baseline only to that template, while the baseline matches the settings |
| TemplateUpdate.Machine.CheckSettings | src/runtime.rs:461-471 | succeeds exactly when the six fields named in the source and nested virtualization match |
| TemplateUpdate.Machine.Publish | src/config.rs:179-197 | the file is replaced whole or not at all, which the history records, and a failure after the rename leaves it replaced |
| TemplateUpdate.Machine.Update | src/runtime.rs:449-517 | whatever others edit, a run that reports no write, or a fault that is not of the system, has published nothing; without edits success leaves both files with this CLI's provisioning and everything else of the baseline, and it writes only the steps towards that; it refuses an edited template with both files unchanged, and reports a write exactly when there was one; when the system lets it through it succeeds exactly from a ready state |
| TemplateUpdate.MidwayStep | src/runtime.rs:502-509 | a run from (b,b), (c,b) or (c,c) ends in one of them |
| TemplateUpdate.SameCli | src/runtime.rs:449-517 | after any failures and crashes one run of the same CLI that the system lets through finishes the update, with this CLI's provisioning and everything else as it was, and the next writes nothing |
| TemplateUpdate.AnyClis | src/runtime.rs:472-479 | whatever CLIs run, both files keep everything but the provisioning |
| TemplateUpdate.AnyRuns | src/runtime.rs:449-517 | over any runs and any edits the history is lawful, says what both files hold, and has publications only of CLIs that ran |
| DockerArgs.Taken | src/docker_args.rs:84-98 | an accepted option takes at least one argument and none that is missing |
| DockerArgs.ShortOptions | src/docker_args.rs:113-146 | the letter loop takes what the specification says, with its errors |
| DockerArgs.ValidateContainerOptions | src/docker_args.rs:76-103 | the option loop stops where the specification says, with its errors |
| DockerArgs.Validate | src/docker_args.rs:23-74 | the verdict for any arguments, with the first error |
| DockerArgs.ShortsAgree | src/docker_args.rs:113-146 | the reference parser takes an accepted cluster the same way unless it dangles, and sees no target letter |
| DockerArgs.LongAgrees | src/docker_args.rs:84-95 | an accepted long option is well formed, has the same arity in the reference parser and is no target |
| DockerArgs.AcceptedOptionsAgree | src/docker_args.rs:23-146 | for accepted exec, run and create the reference parser fails exactly on dangling options, and otherwise stops at the same operand without a target option |
| DockerArgs.ParsedIsAccepted | src/docker_args.rs:23-146 | every exec, run or create that the reference parser reads is accepted, with the same operand, if and only if no argument names a target and no option chooses one |
| DockerArgs.TablesAgree | src/docker_args.rs:148-254 | the long options known are Docker's, with their arities, without those that choose a target |
| DockerArgs.ShortTablesAgree | src/docker_args.rs:113-146 | a letter has the arity of the long option that it stands for, and the two letters refused are those that choose a target |
| DockerArgs.TargetNames | src/docker_args.rs:31-37 | an argument names a target if and only if it is one of the three options, alone or with a value |
| DockerArgs.DanglingIsAccepted | src/docker_args.rs:140-141 | an argument list that is accepted and that the reference parser refuses |
| DockerArgs.AcceptedArguments | src/docker_args.rs:31-37 | no accepted argument names a target; for commands other than exec, run and create, alone or after container, acceptance is exactly the absence of targets, of options before the subcommand, and of builders and ambiguous short options after it |
| DockerArgs.PayloadIsFree | src/docker_args.rs:79-83 | after the operand only the three target names change the verdict |
| Base64.EncodeBase64 | build.rs:6-33 | the loop over chunks gives the wrapped encoding |
| Base64.LetterIsAlphabet | build.rs:7 | the table is the alphabet of RFC 4648 |
| Base64.BitsRoundTrip | build.rs:10-24 | shifts and masks lose no bit of three bytes, and padding leaves zero bits |
| Base64.RoundTrip | build.rs:9-25 | a strict decoder returns the bytes |
| Base64.LineLengths | build.rs:26-32 | every line but the last has 76 characters, the last 1 to 76 |
| Base64.WrappedRoundTrip | build.rs:6-33 | without newlines the text decodes to the bytes, and its length is the promised one |
| RequestLine.ValidateRequest | src/microvm.rs:122-180 | accepts exactly the requests described: characters, sizes, allowed and distinct keys, required keys, ids and paths |
| RequestLine.SentIff | src/microvm.rs:122-180 | the client sends a request if and only if its words are an action and, none twice, the fields that this action needs or may have, each a key and a value of its kind, within the limits and without the refused characters |
| RequestLine.ReadLine | scripts/microvmd.sh:289-321 | the shell loop gives the fields or the first error |
| RequestLine.ClientAndGuestAgree | src/microvm.rs:122-180 | from an accepted request the shell reads the same action and fields if and only if every white space in it is white space to the shell |
| RequestLine.VerticalTabIsRefused | scripts/microvmd.sh:299-303 | a request that the client sends and whose action the shell does not know |
| RequestLine.PrintedCreateIsRead | src/main.rs:346-350 | the shell recovers every field of a printed create line, paths with = included, and accepts them |
| RequestLine.PrintedCreateIsSent | src/microvm.rs:145-146 | the client sends a printed line if and only if both paths have at most 1017 characters |
| RequestLine.PrintedOrderIsSentAndRead | src/main.rs:314-373 | capabilities, inspect, start and stop lines, with valid ids and either force, are sent and read back by the shell as printed |

## Left out

- Sockets, TLS, certificates, host names and the other header changes of the gateway: one-branch facts or I/O.
- `systemctl`, `kill`, `/proc`, `limactl`, `curl`, the jailer and cgroups answer anything, fail or change state in the models; timeouts are failures.
- Directory syncs as a separate layer of durability: rename, link and unlink are atomic and durable, and a sync may fail after them.
- DockerShutdown.Guest.ReloadConfig: an answer of the daemon that cannot be read counts as a request that failed, so a `reliable` run has none; that the signal was sent is not recorded.
- DockerShutdown.AnyHistory: that the last recovery restores the file needs one of its hundred temporary names, so its process number is one that no earlier run had.
- Reading the backup's directory entry is taken as reliable; the helper treats an unreadable entry as a missing backup.
- `docker_shims_remain` answers anything, because the source answers no when `/proc` cannot be read.
- DockerShutdown.Guest.Exchange: edits between the comparison and the rename are excluded, because the source cannot detect them.
- TemplateUpdate.Machine.Update: edits between the recheck and the renames are excluded, because the source cannot detect them; serialising a template and parsing it again is taken to give the same template.
- MicrovmManager.Manager.Serve: the bound covers recorded VMMs; a manager killed between starting a VMM and recording it leaves one that nothing counts, and reconciling that is not part of the source.
- MicrovmManager.Manager.Stop: signals and `force` are a step after which those that got them may or may not have ended; that the VMM is gone follows only from the emptied cgroup, and the source skips that check when the record names a cgroup under another parent.
- MicrovmManager.Manager.Create: ids and paths are opaque names; their syntax is in `RequestLine`.
- The read-only requests `inspect` and `capabilities`, logs, FIFOs and cgroup limits of the manager.
- Shell number quirks: vcpus and memory are naturals, as the CLI prints them.
- StorageWalk.Walk.Scan: the tree does not change during the walk, except that with `faulty` a directory may seem changed or unreadable at any question; message texts are kinds of problem.
- GatewayBody.CollectBody: an exact reservation gives the exact capacity, and the frame itself is not counted.
- DockerArgs.Validate: strings are sequences of characters, which differs from the flag parser's bytes only inside values.
- RequestLine.ValidateRequest: error texts are not told apart.
- RequestLine.PrintedCreateIsRead: the shell is taken to run in the C locale, where it counts bytes and its space class has six characters.
- Process launching, cancellation, the Docker connection check, startup records, CLI parsing, reports, provisioning scripts and release tools.
