# ATS Proxy Manager: a verified model

ATS Proxy Manager keeps the configuration of a fleet of Apache Traffic Server proxies. A
backend stores rule sets, approves them, prints three files for each (`parent.config`,
`sni.yaml`, `ip_allow.yaml`) and hashes them; a helper beside every proxy polls for a new
hash, replaces the files, reloads the proxy and acknowledges. A migrator keeps the database
schema up to date. This project models these four parts in Dafny and proves what they
guarantee for all inputs, all runs and all schedules of failures.

`dafny verify dfyconfig.toml` checks everything.

## Parts

| files | part |
|---|---|
| Text, Sorting, Matching | Go's strings and `sort.Slice`; first match on lines against best match on rows |
| NetAddr, CidrRange | IP and CIDR text, masks, the printed start-end range and what it covers |
| Rules, Grammar | the rule rows and their validation; exactly which texts are addresses, blocks and names |
| ParentConfig, Routing | parent.config: generator, parser, and the routing decision |
| SniYaml, IpAllow | the other two files: generator, parser, meaning |
| ConfigFiles, Determinacy, Ties, Meaning | all three files and their hash; when ties leave them open; from the rules to what a machine has loaded |
| Store, Lifecycle, LifecycleFacts, ConfigService | tables and invariant; the service calls as functions on tables; what every run keeps; the calls in place |
| Calls | each call told by what it asks and by the rows it leaves; what the defaults mean |
| Claims, Races | which events set and end the facts of the tables; calls that overlap |
| Sync, SyncService, Answers | registration, poll, acknowledgement, stale rows, removal: as functions, in place, and told row by row |
| Helper, Protocol, ProtocolFacts | the helper's process; backend, helpers and network as one state machine; its guarantees |
| Convergence | what every run of a sync ends in, and what a saved hash hides |
| InForce, EndToEnd, Failures | from an empty database: the way that works, and the ways to each thing that goes wrong |
| Migrate, MigrateFacts, FiveMigrations, Bootstrapping | the migrator for any migrations, and for the five of the repository; what it finds, records and sends |

## Assumptions

- In parent.config and ip_allow.yaml the first line that matches decides. This reading fits the
  shipped proxy-config/parent.config:9-60, where the default stands last.
- In parent.config a `dest_domain` with a leading dot matches the hosts that end in it, another
  one exactly its own host, and `.` every host; `dest_ip` is an address or a range.
- SHA-256 is injective: a digest stands for the hashed text.
- A table has no order: a query returns its rows in any order that its ORDER BY admits, and
  `sort.Slice` may leave rows of equal priority in any order. Generation is therefore a
  relation, `ConfigFiles.IsGeneration`; `Ties.TiesHarmless` says when it is a function.
- Each SQL statement and each committed transaction is atomic; new UUIDs are fresh; time is
  counted in seconds; replacing one file (write, then rename) is atomic.

## What the code does not do

Some properties that one would expect do not hold of the code as it is. For each there is a
failing family of inputs or runs, and the exact condition under which the property holds.

- A CIDR that writes an IPv4 block in IPv6 form (`::ffff:10.0.0.0/104`) is printed as a range
  of one address, because the 16-byte mask is read at the positions of the 4-byte address.
  `CidrRange.RangeExactIff` has the condition for the range, `Routing.TruncationHarmlessIff`
  for the routing decision (harmless within 127.0.0.0/8 and 169.254.0.0/16); `Routing.FileDecides`
  says what the file decides in any case.
- With tied priorities the files are not determined by the rows, and the poll may send files
  that do not hash to the hash sent with them: exactly when the ties are not harmless,
  `Ties.FilesDeterminedIff` and `Sync.ReplyMismatchIff`. `Failures.TiedGoesAstray` runs every
  such rule set from the empty database to a machine shown in sync with other files.
- Calls that overlap can leave two active configs on a proxy. Two approvals do exactly when
  their configs share a proxy (`LifecycleFacts.InterleavingSafeIff`, `Races.ApprovalInGapIff`),
  two assignments exactly when they are of different configs to one proxy
  (`Races.TwoAssignsIff`); `Failures.ApprovalsClash` and `Failures.AssignmentsClash` are runs
  that lead there. An approval can also activate a config with the hash of older rules
  (`Races.RewrittenMeanwhile`) or on proxies that it was linked to meanwhile
  (`Races.RelinkedMeanwhileIff`). For any events whatever in the gaps `Races.LateApprovalIff`
  and `Races.LateAssignIff` have the exact conditions.
- After an interrupted update a helper that is told to go back to its former config keeps the
  torn files, because its hash file still names that config: `Convergence.PollConverges` has
  the exact condition, `EndToEnd.TornForGood` a run for every two configs.
- A lost acknowledgement is not repeated: the machine has the files, and its row never shows
  it while they stay served. `Convergence.LostAckIsNotRepeated` says so of every run,
  `Convergence.RowIsLastArrived` that the row has the hash of the last acknowledgement that
  arrived and no other, `Failures.AckLostForGood` gives a run for every config and machine.

- An address rule cannot name 0.0.0.0, but a client rule can, in another form
  (`Grammar.ZeroGetsThrough`; `Grammar.ValidAclIff` has the condition).
- A bootstrap that was interrupted is not resumed: the next run sends migrations whose effect is
  there but not recorded (`Bootstrapping.HalfBootstrapResends`; `Bootstrapping.RunSendsIff` has
  the condition). It does no harm, because 002 to 005 can run again (`FiveMigrations.BodyGrows`).

docs/MIGRATIONS.md lists three bootstrap footprints; the code has five, and the model follows
the code. The root README describes `approved` as an automatic transition; in the code a config
reaches it only when another one that shares a proxy is activated.

## Model

| member | source | states |
|---|---|---|
| Rules.ValidateRules | backend/internal/service/config_service.go:192-277 | the reported problems are exactly those the rules have, section by section and index by index; none is reported exactly when the rule set is valid |
| Rules.ValidateCIDR | backend/internal/service/config_service.go:279-297 | no problem for an accepted address or block other than 0.0.0.0, else the one that names the reason |
| Rules.ValidExcludesZero | backend/internal/service/config_service.go:279-302 | an accepted address rule never covers 0.0.0.0, and a dotted block has prefix length 1 or more |
| Grammar.ValidCidrIff | backend/internal/service/config_service.go:279-297 | an address rule may name exactly the addresses and blocks that do not cover 0.0.0.0 |
| Grammar.ValidAclIff | backend/internal/service/config_service.go:230-246 | a client rule likewise, except that of the bare addresses only the text 0.0.0.0 is refused |
| Grammar.ZeroGetsThrough | backend/internal/service/config_service.go:232-236 | 0.0.0.0 after ::ffff: is accepted as a client rule |
| Grammar.DomainIff | backend/internal/service/config_service.go:190-190 | a domain rule may name exactly two or more labels of letters, digits and inner hyphens, after an optional wildcard |
| Grammar.DottedIff | backend/internal/service/config_service.go:279-288 | a text is a dotted address if and only if it is four numbers up to 255, without leading zeros, with dots between |
| Grammar.EightGroups | backend/internal/service/config_service.go:279-288 | eight hexadecimal groups are the sixteen bytes they write (section 2.2 of RFC 4291) |
| Grammar.GappedGroups | backend/internal/service/config_service.go:279-288 | up to seven groups around a double colon are these with zeros between (section 2.2 of RFC 4291) |
| CidrRange.CidrToRange | backend/internal/service/config_service.go:893-911 | the loop over the bytes computes the range text, and leaves every other text alone |
| CidrRange.RangeExactIff | backend/internal/service/config_service.go:893-911 | the printed field covers exactly the addresses of the rule, for every accepted text and every address, if and only if the rule is not an IPv4 block in IPv6 form with more than one address |
| CidrRange.DottedRangeSize | backend/internal/service/config_service.go:893-911 | a dotted block of prefix length n prints a range of 2^(32-n) addresses |
| CidrRange.MappedRangeLoses | backend/internal/service/config_service.go:899-908 | every truncated block loses an address that it denotes |
| CidrRange.TruncatedFamily | backend/internal/service/config_service.go:899-908 | every dotted address after ::ffff: with prefix length 96 to 127 is such a block |
| CidrRange.TruncatedExample | backend/internal/service/config_service.go:899-908 | 10.0.0.0/8 in IPv6 form denotes an address that its printed range misses |
| ParentConfig.GenerateParentConfig | backend/internal/service/config_service.go:800-863 | sorts its three slices in place and returns the text of the sorted rows, with the enabled parents in order |
| ParentConfig.ParseParentText | backend/internal/service/config_service.go:824-862 | the printed file parses back to exactly the fixed entries, the entries of the rules in order and the default, for all validated rows |
| ParentConfig.ParsePrintEntry | backend/internal/service/config_service.go:835-860 | one printed line parses back to its destination, route and parent list |
| ParentConfig.EnabledParents | backend/internal/service/config_service.go:808-822 | the loop collects the enabled parents in priority order |
| ParentConfig.EnabledAt | backend/internal/service/config_service.go:808-822 | the parents listed are the enabled rows, each with its address and port, in the order of the rows |
| Routing.FileDecides | backend/internal/service/config_service.go:800-863 | for every valid rule set, order of ties and destination: what the parsed file decides by first match, truncated blocks included |
| Routing.RoutingPreserved | backend/internal/service/config_service.go:800-863 | first match over the parsed file is the reference decision: infrastructure direct, then the best address rule, then the best domain rule, then the default; for all rules but truncated blocks whose lost addresses matter |
| Routing.TruncationHarmlessIff | backend/internal/service/config_service.go:893-911 | a CIDR keeps the routing decision in every rule set around it, whose other rules do, if and only if it is no truncated block or one within 127.0.0.0/8 or 169.254.0.0/16 |
| Routing.InfraBlockIff | backend/internal/service/config_service.go:824-833 | these are exactly the truncated blocks of which all addresses but the first go direct anyway |
| Routing.LoopbackIsHarmless | backend/internal/service/config_service.go:893-911 | there are such blocks: every 127.x.y.z after ::ffff: with prefix length 104 to 127 |
| Routing.NoParentDecides | backend/internal/service/config_service.go:834-860 | with no parent enabled the dropped parent rules change no decision: everything goes direct |
| Routing.ReferenceIsUnique | backend/internal/service/config_service.go:803-806 | with distinct priorities the reference decision is one |
| Routing.TruncationMisroutes | backend/internal/service/config_service.go:899-908 | a direct rule with a truncated block sends every address of the block but the first to the parent |
| Routing.DomainFieldMeaning | backend/internal/service/config_service.go:790-798 | the printed domain selects exactly the hosts the rule names: one host, or all with more labels before the base |
| Routing.InfraFirst | backend/internal/service/config_service.go:824-833 | the fixed lines send exactly loopback, link-local, cluster and localhost destinations direct and let the rest through |
| Matching.FirstIsBest | proxy-config/parent.config:9-60 | first match on lines in priority order finds the matching row of the smallest priority number |
| SniYaml.GenerateSNIYaml | backend/internal/service/config_service.go:876-891 | sorts in place and prints the direct rules in order |
| SniYaml.ParseSniText | backend/internal/service/config_service.go:876-891 | the file parses back to the names of the direct rules in order |
| SniYaml.TunnelledIffDirect | backend/internal/service/config_service.go:865-891 | a host is tunnelled exactly when a direct rule names it |
| IpAllow.GenerateIPAllowYaml | backend/internal/service/config_service.go:913-932 | sorts in place and prints a block for every rule and the two closing ones |
| IpAllow.ParseAllowText | backend/internal/service/config_service.go:913-932 | the file parses back to the rules in order and the two closing blocks |
| IpAllow.AccessPreserved | backend/internal/service/config_service.go:913-932 | for every client address first match over the parsed file admits exactly when the best matching rule is allow |
| IpAllow.ClosingDenies | backend/internal/service/config_service.go:927-929 | a client that no rule matches is denied, IPv4 or IPv6 |
| ConfigFiles.GenerateConfigFiles | backend/internal/service/config_service.go:759-788 | the three texts are one generation of the rows, whose domain slice is sorted twice |
| ConfigFiles.GenerateConfigHash | backend/internal/service/config_service.go:746-756 | the hash is that of the concatenation of one generation |
| ConfigFiles.RowOrderIrrelevant | backend/internal/service/config_service.go:803-806 | with distinct priorities two databases with the same rows in any order give the same files and hash |
| Determinacy.DeterminedIff | backend/internal/service/config_service.go:803-806 | for any way of printing rows: every order that the priorities allow prints the same if and only if tied rows print the same in either order |
| Ties.AllowDeterminedIff | backend/internal/service/config_service.go:913-932 | the client rules determine ip_allow.yaml if and only if no two of them share a priority |
| Ties.SniDeterminedIff | backend/internal/service/config_service.go:876-891 | the domain rules determine sni.yaml if and only if no two direct ones share a priority |
| Ties.ParentDeterminedIff | backend/internal/service/config_service.go:800-863 | the rows determine parent.config if and only if no two tied rules print different lines and, where some line lists the parents, no two enabled parents tie |
| Ties.FilesDeterminedIff | backend/internal/service/config_service.go:746-788 | the rows determine all three files, hence the hash, if and only if the ties are harmless in each of them |
| Ties.HarmlessOrder | backend/internal/service/config_service.go:803-806 | with harmless ties two databases with the same rows in any order give the same files and hash |
| ConfigFiles.SplitFilesBack | backend/internal/service/config_service.go:746-756 | the hashed concatenation splits back into its three files |
| ConfigFiles.HashDecidesFiles | backend/internal/service/config_service.go:746-756 | for any two valid rule sets, hashes are equal if and only if all three files are |
| ConfigFiles.FilesNotEmpty | backend/internal/service/config_service.go:824-833 | none of the three texts is ever empty, for any rule set |
| Meaning.ReferenceIsAsked | backend/internal/service/config_service.go:803-806 | the reference decision spelled out: infrastructure direct, else the covering address rule of the smallest priority number, else the matching domain rule of the smallest, else the default; parent only where one is enabled |
| Meaning.GenerationMeans | backend/internal/service/config_service.go:800-932 | every possible output admits and tunnels as the rules do, and routes as they do if no truncated block does harm |
| Meaning.InSyncDecides | backend/internal/service/proxy_service.go:206-217 | a proxy shown in sync has at some step held and loaded files under the hash of its active config, which decide as its rules do if the ties of the rules they came from are harmless |
| Calls.CreateIff | backend/internal/service/config_service.go:304-414 | the error in every case, and after a success one row more and its links: a draft of version 1 with the name, user and rules of the request, direct for an absent default, and 127.0.0.1, ::1, 10.0.0.0/8 allowed for an absent client list |
| Calls.UpdateIff | backend/internal/service/config_service.go:416-541 | the error in every case, and after a success name, rules and links of the request, direct for an absent default, an absent client list left empty |
| Calls.CloneIff | backend/internal/service/config_service.go:543-664 | a draft with the name of its source, the next version and links to the same proxies |
| Calls.DeleteIff | backend/internal/service/config_service.go:118-147 | the error in every case: refused exactly for active and approved configs and those a proxy row names; row and links gone, nothing else |
| Calls.CreatedDefault | backend/internal/service/config_service.go:310-312 | in every file of a config as created, a destination that no rule names goes direct, unless the request says parent and a parent is enabled |
| Calls.UpdatedDefault | backend/internal/service/config_service.go:417-420 | so after an update |
| Calls.CreatedAccess | backend/internal/service/config_service.go:366-374 | a config created without client rules admits exactly 127.0.0.1, ::1 and 10.x.y.z |
| ConfigService.InsertRows | backend/migrations/001_initial.sql:92-92 | inserting row by row succeeds exactly when all rows fit their columns and no key occurs twice |
| ConfigService.HashRules | backend/internal/service/config_service.go:746-788 | reading the tables in priority order and generating gives the hash of a generation of the stored rows |
| ConfigService.ConfigService.Create | backend/internal/service/config_service.go:304-414 | guards, default client rules, and all rows and links in one transaction, or nothing |
| ConfigService.ConfigService.Update | backend/internal/service/config_service.go:416-541 | replaces rules and links of a draft in one transaction; no name check and no default client rules |
| ConfigService.ConfigService.Clone | backend/internal/service/config_service.go:543-664 | a new draft with the same rows and proxies and the next version |
| ConfigService.ConfigService.Approve | backend/internal/service/config_service.go:685-724 | guards, hash of the stored rows, deactivation of the others, activation; stopped in between, the deactivation alone |
| ConfigService.ConfigService.DeactivateOthers | backend/internal/repository/config_repo.go:220-234 | the nested queries retire exactly the other active configs that share a proxy |
| ConfigService.ConfigService.Delete | backend/internal/service/config_service.go:118-147 | both guards, the foreign key of proxies, then row and links gone |
| ConfigService.ConfigService.AssignConfig | backend/internal/service/proxy_service.go:219-243 | guards, all old links of the proxy gone, one new link; stopped in between, no link |
| ConfigService.ConfigService.AssignAll | backend/internal/repository/config_proxy_repo.go:43-54 | inserts the links, failing exactly when a proxy is unknown |
| ConfigService.ConfigService.DeleteProxy | backend/internal/service/proxy_service.go:183-204 | the row and its links gone |
| Lifecycle.RunKeepsInv | backend/internal/service/config_service.go:304-743 | in every state that any sequence of calls, broken-off calls and row updates reaches: one active config per proxy, audit trail, correct stored hash, valid rules, no dangling key |
| Lifecycle.ApproveKeeps | backend/internal/service/config_service.go:703-710 | an approval keeps all of that |
| Lifecycle.AssignKeeps | backend/internal/service/proxy_service.go:219-243 | an assignment to an active config keeps all of that |
| Lifecycle.NoHashMissing | backend/internal/service/sync_service.go:194-201 | an active config always has its hash, so the branch that fills it in is dead |
| Lifecycle.DefaultAclGood | backend/internal/service/config_service.go:366-374 | the default client rules pass the validation and the constraints |
| Store.LimitOneIsExact | backend/internal/repository/config_repo.go:197-218 | the query for the active config of a hostname never has a choice |
| LifecycleFacts.ApprovalIsExclusive | backend/internal/service/config_service.go:703-710 | after an approval every proxy of the config has exactly it as active |
| LifecycleFacts.EveryMove | backend/internal/repository/config_repo.go:129-195 | every event moves a row along one arrow of the status diagram and changes nothing else; only a row never activated can go |
| LifecycleFacts.ActivatedIsFrozen | backend/internal/repository/config_repo.go:129-188 | in every run an activated config keeps rules, hash and approval, never returns to draft, and once replaced never becomes active again |
| LifecycleFacts.HashIsCurrent | backend/internal/service/config_service.go:697-710 | with harmless ties the stored hash is that of the files generated now |
| LifecycleFacts.CloneHasSourceFiles | backend/internal/service/config_service.go:543-664 | a clone, submitted and approved unedited, has files and hash of its source and is active on the proxies of its source |
| LifecycleFacts.VersionCountsClones | backend/internal/service/config_service.go:566-573 | in every run a version is one plus the length of the clone chain |
| LifecycleFacts.InterleavingSafeIff | backend/internal/service/config_service.go:703-710 | two approvals, both deactivations before both activations, keep one active config per proxy if and only if the configs share no proxy |
| Claims.HoldsAfterIff | backend/internal/repository/config_repo.go:129-234 | for each kind of fact (a config is active, is linked to a proxy, waits for approval by a user, has certain rules): exactly which events, with which guards passed, make it true and which end it |
| Claims.AtEndIff | backend/internal/repository/config_repo.go:129-234 | after any run a fact holds if and only if some event set it, or it held before, and no later event ended it |
| Races.LateApprovalIff | backend/internal/service/config_service.go:697-710 | whatever events fall into the gaps of an approval that still finds the config pending: the stored hash is right if and only if the hashed files are files of the rules that the last update left, the approver is the submitter if and only if he submitted last, and one config stays active per proxy if and only if the gaps leave no other active on a proxy to which they leave this one linked |
| Races.CalmGapIsSafe | backend/internal/service/config_service.go:703-710 | two active configs on a proxy need, between deactivation and activation, the approval of another config or an update of this one |
| Races.ApprovalInGapIff | backend/internal/service/config_service.go:703-710 | a whole approval of another config there is harmless if and only if the two share no proxy |
| Races.RelinkedMeanwhileIff | backend/internal/service/config_service.go:703-710 | rejected, updated and submitted again there, the config does no harm if and only if whatever is active on its new proxies shared a proxy with it before |
| Races.RewrittenMeanwhile | backend/internal/service/config_service.go:697-710 | rejected, rewritten and submitted again in that gap, the config becomes active with the old hash, right if and only if the old files are files of the new rules |
| Races.LateAssignIff | backend/internal/service/proxy_service.go:225-243 | whatever events fall into the gaps of an assignment: one config stays active per proxy if and only if some event retires the assigned config or none of the second gap links another to the proxy that is left linked and active |
| Races.UnlinkedGapIsSafe | backend/internal/service/proxy_service.go:225-243 | harm needs an assignment to the same proxy or a create or update that names it, between removal and insert |
| Races.TwoAssignsIff | backend/internal/service/proxy_service.go:219-243 | two assignments, both removals before both inserts, are harmless if and only if they are for different proxies or of the same config |
| Races.LateDropIsSafe | backend/internal/service/proxy_service.go:225-243 | events between its check and the removal of the old links do no harm |
| SyncService.SyncService.Register | backend/internal/service/sync_service.go:59-125 | ownership check, ignored update errors, new row |
| SyncService.SyncService.GetConfig | backend/internal/service/sync_service.go:142-214 | sign of life, active config, hash shortcut, generated files, and the branch for a missing hash |
| SyncService.SyncService.Answer | backend/internal/service/sync_service.go:174-213 | Unchanged for the stored hash, else the generated files under it, or under a fresh hash that is stored |
| SyncService.SyncService.GetActiveForProxy | backend/internal/repository/config_repo.go:197-218 | any row of the join is the active config |
| SyncService.SyncService.GetByHostname | backend/internal/repository/proxy_repo.go:37-50 | the row of that hostname, if there is one |
| SyncService.SyncService.Ack | backend/internal/service/sync_service.go:224-237 | an ok acknowledgement records the hash and the contact; another changes nothing |
| SyncService.Scheduler.RunProxyCleanup | backend/internal/repository/proxy_repo.go:122-130 | removes exactly the offline rows silent for over four hours, with their links, and counts them |
| Answers.KnownHostIff | backend/internal/service/sync_service.go:70-94 | a known hostname is granted if and only if its row is offline, has recorded the address, or is the one claimed; then that row has the new address and is seen now, else nothing changes |
| Answers.KnownHostPoll | backend/internal/service/sync_service.go:142-213 | a known host is told Unchanged if nothing is active on its row or what is active has the hash it sent, else that hash with the files; its row is marked seen, nothing else changes |
| Answers.MissingHashIsFilled | backend/internal/service/sync_service.go:194-201 | were the hash of an active config missing, the poll would store one of a generation and send it |
| Answers.AckIff | backend/internal/service/sync_service.go:224-237 | a report of success sets hash and contact of the row of its host and of no other; a report of failure leaves every row as it was; only an unknown host is an error |
| ProtocolFacts.RegistersIff | backend/internal/service/sync_service.go:59-125 | in the protocol, a machine obtains a known hostname under exactly these three conditions, and is then connected with the id of that row |
| ProtocolFacts.SilentIsGranted | backend/internal/scheduler/jobs.go:38-55 | in every reachable state a hostname without a contact for three minutes is granted to any address |
| EndToEnd.ChangesHands | backend/internal/service/sync_service.go:70-94 | a run from the empty database in which a second machine with another address is refused at first, and takes the row over after three minutes of silence |
| Sync.UnchangedIff | backend/internal/service/sync_service.go:174-213 | the poll answers Unchanged exactly when full regeneration hashes to the helper's value, and else sends those files with their hash |
| Sync.GetConfigIsRun | backend/internal/service/sync_service.go:142-201 | a poll touches the proxy row and nothing else |
| Sync.ReplyMismatchIff | backend/internal/service/sync_service.go:188-201 | the reply can carry files that do not hash to its hash if and only if the ties of the active config are not harmless |
| Sync.CloneIsUnchanged | backend/internal/service/sync_service.go:180-186 | a helper on the files of a config is told Unchanged once an unedited clone has replaced it |
| Helper.Manager.ApplyConfig | helper/internal/ats/manager.go:41-71 | replaces the files in order up to the first failure, skipping empty texts |
| Helper.LostSaveIsRetried | helper/internal/ats/manager.go:108-111 | a sync whose files were loaded leaves the new hash saved if and only if the save succeeded, else the old one or none, so that the next poll sends the files again |
| Helper.DoSync | helper/cmd/helper/main.go:182-231 | what one sync leaves on the machine and sends, and whether it stays connected, for every answer, for an error without answer, and for every failure |
| Helper.Client.WaitForRegister | helper/cmd/helper/main.go:122-145 | tries until the first success and keeps its id |
| Helper.Client.HelloTick | helper/cmd/helper/main.go:150-180 | a failed hello disconnects; only a successful registration connects again |
| Helper.Client.Register | helper/internal/sync/client.go:150-166 | a success replaces the remembered id, a failure keeps it |
| Helper.ApplyIsExactIff | helper/internal/ats/manager.go:41-71 | a successful apply leaves exactly the sent files, whatever was there, if and only if no text is empty |
| Helper.BackendSendsComplete | backend/internal/service/sync_service.go:203-210 | no text the backend generates is empty, so the skips are never taken |
| Helper.PollConvergesIff | helper/cmd/helper/main.go:182-226 | a faultless poll brings a machine to the active files and hash if and only if its saved hash differs or it has them already |
| Helper.TornMachineStays | helper/cmd/helper/main.go:206-221 | on one machine: after an update that failed half-way and a return to the former files no number of polls repairs it |
| EndToEnd.TornForGood | helper/cmd/helper/main.go:206-221 | that happens: for every two rule sets with different parent.config there is a run from the empty database to a machine served the first, with its hash saved and a file of the second on disk, which no later run repairs while they stay served |
| Protocol.ReachableInv | backend/internal/service/sync_service.go:59-237 | every reachable state of backend, machines and network meets the whole invariant |
| Protocol.StepIsRun | backend/internal/service/sync_service.go:59-237 | every step changes the tables as a run of the lifecycle does |
| ProtocolFacts.AcknowledgedWasLoaded | helper/cmd/helper/main.go:206-226 | a hash in a proxy row stands for files that a machine of that hostname held and loaded at an earlier step, whatever failed and was reported so, was lost, late, torn or restarted |
| ProtocolFacts.InSyncWasLoaded | backend/internal/service/proxy_service.go:206-217 | in sync implies that files were loaded on that host before under the hash of the active config: its files if and only if they have that hash, which harmless ties of the rules they came from ensure |
| ProtocolFacts.OnlineIsRecent | backend/internal/scheduler/jobs.go:38-55 | with checks at most a minute apart an online proxy was seen in the last three minutes |
| ProtocolFacts.CleanupIff | backend/internal/scheduler/jobs.go:58-78 | cleanup removes exactly the rows seen once and then not for over four hours; a row never seen stays |
| ProtocolFacts.TakeoverInRuns | backend/internal/service/sync_service.go:70-94 | in every reachable state a takeover needs two minutes of silence |
| ProtocolFacts.DoSyncIsRun | helper/cmd/helper/main.go:182-231 | every reply and fate is realised by a run of single steps with the result the method promises |
| Convergence.EverySyncEnds | helper/cmd/helper/main.go:182-231 | conversely, in every run, interleaved with anything, a machine that is idle again after an uninterrupted poll is as the method says for some fate, a faultless one if no step failed, and has sent exactly the report, of success or failure, that the method sends |
| Convergence.PollConverges | helper/cmd/helper/main.go:182-231 | in every such run without a fault the machine ends converged if and only if its saved hash differed or it had the files; in the first case it has sent the acknowledgement, once, and else nothing |
| Convergence.MailIsAccounted | helper/cmd/helper/main.go:224-226 | in every run each acknowledgement that is sent arrives, gets lost or is on its way, one of these and once |
| ProtocolFacts.ConvergedIsQuiet | backend/internal/service/sync_service.go:180-186 | the next poll of a converged machine is Unchanged and moves no machine |
| Convergence.CleanMachineConverges | helper/cmd/helper/main.go:206-221 | in every reachable state a machine on which no file was replaced since its last saved hash converges by every faultless sync |
| Convergence.NamedMachineStays | backend/internal/service/sync_service.go:180-186 | a machine whose saved hash names the served files stays as it is, converged or torn, through every run in which they stay served |
| Convergence.LostAckIsNotRepeated | helper/cmd/helper/main.go:201-204 | through every run in which the files stay served, such a machine, alone on its host, sends no acknowledgement again, and none of its host gets under way |
| Convergence.RowIsLastArrived | backend/internal/service/sync_service.go:224-237 | through every run in which the host is served, its row ends with the hash of the last report of success that arrived for it, or the one it had; reports of failure never count |
| Convergence.NoneArrives | backend/internal/service/sync_service.go:224-237 | such a machine with none on the way never has another arrive |
| Failures.AckLostForGood | helper/cmd/helper/main.go:224-226 | for every rule set with harmless ties and every unregistered machine on other files there is a run from the empty database in which it registers, loads, saves and sends, the acknowledgement is lost, and no later run in which the files stay served puts a hash into its row |
| Failures.TiedGoesAstray | backend/internal/service/sync_service.go:188-201 | for every rule set with harmful ties there is a run from the empty database to a fresh machine shown in sync with loaded files that do not have the hash |
| Failures.ApprovalsClash | backend/internal/service/config_service.go:703-710 | any two rule sets can wait for approval on one proxy, and two approvals at once then leave both active there |
| Failures.AssignmentsClash | backend/internal/service/proxy_service.go:219-243 | any two rule sets can both be active, and two assignments at once then leave both active on one proxy |
| InForce.ComesIntoForce | backend/internal/service/config_service.go:304-724 | a config created, submitted and approved for a proxy, with any ties, governs its host, and the rules and links of the other configs stay |
| InForce.CloneComesIntoForce | backend/internal/service/config_service.go:543-724 | so does an unedited clone for the proxies of its source |
| EndToEnd.EveryRuleSetArrives | helper/cmd/helper/main.go:182-231 | from an empty database, for every valid rule set with harmless ties and every unregistered machine on other files: a run registers, creates, approves, fetches, loads and acknowledges, and ends converged and in sync |
| Migrate.LoadMigrations | backend/internal/migrate/migrate.go:142-180 | the files that name a version, sorted by it |
| Migrate.NameRoundTrip | backend/internal/migrate/migrate.go:140-161 | number, underscore and title give that version, with leading zeros |
| Migrate.Postgres.RunMigrations | backend/internal/migrate/migrate.go:27-124 | the run, with any database operation as the one that fails |
| Migrate.Postgres.ApplyLoop | backend/internal/migrate/migrate.go:80-115 | the loop over pending migrations, each in one transaction with its record, and the list of those it tried |
| Migrate.Postgres.BootstrapExistingDB | backend/internal/migrate/migrate.go:226-271 | checks the five footprints in order and records those found |
| Bootstrapping.VersionOfIff | backend/internal/migrate/migrate.go:140-161 | a file name gives a version if and only if it is that number, an underscore, a title and .sql |
| Bootstrapping.LoadedIff | backend/internal/migrate/migrate.go:142-180 | exactly the files that name a version are loaded, no directory |
| Bootstrapping.FilenameIff | backend/internal/migrate/migrate.go:244-247 | a version is recorded under the name of the last file that has it |
| Bootstrapping.BootstrapExact | backend/internal/migrate/migrate.go:249-268 | for any migrations, a bootstrap that is done has added exactly the versions that have a file and a footprint |
| Bootstrapping.EffectsRecordedIff | backend/internal/migrate/migrate.go:235-268 | for the five, on every existing untracked database it has recorded exactly the versions whose effect is there |
| Bootstrapping.RunSendsIff | backend/internal/migrate/migrate.go:61-115 | in every state that stopped runs can leave, a run sends only the unrecorded versions, on an untracked database only those whose effect is missing, and all of these when it is done |
| Bootstrapping.NothingToSend | backend/internal/migrate/migrate.go:61-115 | where all five effects are there and untracked, a run sends nothing |
| Bootstrapping.HalfBootstrapResends | backend/internal/migrate/migrate.go:249-268 | after a bootstrap that stopped behind its first record, the next run sends 002 to 005 though their effects are there |
| MigrateFacts.RunContract | backend/internal/migrate/migrate.go:61-123 | wherever it stops, a run has recorded footprints only on an untracked database with users, and committed a prefix of the pending migrations with their records; all of them if it finishes, and once it has tried one only then |
| MigrateFacts.RanAreSmallest | backend/internal/migrate/migrate.go:80-115 | they ran in ascending order, and a failed run leaves exactly the smaller pending versions added |
| MigrateFacts.SentExtendsRan | backend/internal/migrate/migrate.go:89-115 | a transaction is tried for each migration that ran and for at most one more, and for none that is recorded |
| MigrateFacts.DoneThenIdle | backend/internal/migrate/migrate.go:80-123 | after a finished run another executes and changes nothing |
| MigrateFacts.FinishesIff | backend/internal/migrate/migrate.go:27-124 | a whole run that is not cut short finishes if and only if the bodies that are pending after the bootstrap execute in turn and their versions fit, are unrecorded and distinct |
| FiveMigrations.CrashSafe | backend/internal/migrate/migrate.go:61-115 | from an empty or an untracked existing database and after any broken-off runs: 001 is sent, even without success, only where there are no users, no body that is sent fails, a run let alone finishes, and the first to finish leaves all five effects and exactly versions 1 to 5 |
| FiveMigrations.LoopAloneIsUnsafe | backend/internal/migrate/migrate.go:61-78 | without the bootstrap the loop sends 001 to every existing database, where it fails, and never finishes |
| FiveMigrations.InitialFromEmpty | backend/migrations/001_initial.sql:15-257 | 001 executes on an empty database and creates its types and tables |
| FiveMigrations.InitialFails | backend/migrations/001_initial.sql:15-17 | 001 cannot run where it ran before |
| FiveMigrations.BodyGrows | backend/migrations/002_expanded_stats.sql:2-12 | 002 to 005 can run on any database that has 001, again and again, and give their effect |
| FiveMigrations.BootstrapGood | backend/internal/migrate/migrate.go:233-268 | a bootstrap stopped anywhere has recorded 001 first and only effects that are there |
| FiveMigrations.DirectoryLoads | backend/internal/migrate/migrate.go:142-180 | the five files of the directory load as versions 1 to 5 in order |

## Left out

- Convergence.CleanMachineConverges: assumes harmless ties in the rule sets that were loaded on that host under the saved hash; otherwise the reply itself may pair a hash with other files (Sync.ReplyMismatchIff, Failures.TiedGoesAstray).
- Routing.RoutingPreserved: not stated for truncated blocks whose lost addresses matter, where it is false (Routing.TruncationHarmlessIff); Routing.FileDecides covers them.
- FiveMigrations.CrashSafe: an existing database has each migration wholly or not at all; one with only some of the columns of 002 is not covered.
- In the runs of Lifecycle and Protocol each service call is one step, or stops after its first update (`Approve`, `AssignConfig`); overlapping calls are treated in Races, and two overlapping registrations not at all.
- Errors of the audit inserts and of reading the tables; descriptions, creation and modification times; the users table and its foreign keys.
- Text is a sequence of characters, not UTF-8 bytes; SQL VARCHAR limits are those of names, domains, CIDRs, addresses, hostnames and registered addresses.
- Table columns created by 001 and 003, views, functions, triggers, indexes and the initial user row; the model keeps types, tables, foreign keys and added columns.
- The advisory lock: runs of the migrator do not overlap.
- What the proxy does with its files beyond first match, failover between parents, and how reload works inside the proxy.
- HTTP, JSON, JWT, sessions, roles, the frontend, statistics, log capture, audit listing, Redis, `Backoff`, `CalculateLocalHash`: plumbing, or code that nothing calls.
