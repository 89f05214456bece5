# Pangolin tunnel control plane, modelled in Dafny

This project models the core of Pangolin's tunnel control plane.

- **Store.** The handlers' store is a set of in-memory tables held in one `Database` object: sites, clients, client–site links, exit nodes, olms and site resources.
- **Handlers.** Three message handlers run against it: a site agent's (newt) `get-config`, and a client agent's (olm) `register` and `ping`. The offline checker sweeps stale clients out of the online set.
- **Dispatch.** A closed record maps message types to handlers.
- **Smaller rules:**
  - the `port:ip:destPort` target encoding and the add/remove target messages;
  - the domain-name validator of the create-domain form, with its punycode fallbacks, preview rule and default domain type;
  - the SQLite migration planner and runner, over SemVer 2.0.0 precedence (section 11 of the Semantic Versioning 2.0.0 specification);
  - the per-organisation limit table.

Outside calls are not performed. Each one becomes an entry of a call log, in issue order. A set named `failing` says which calls reject:
- `updatePeer`, `addPeer`, `deletePeer`;
- `sendToExitNode`, `sendToClient`;
- `listExitNodes`.

The current time is an integer parameter in milliseconds. What `listExitNodes` returns is a parameter too.

Each stateful handler has two parts:
- a reference function over the tables, returning the new tables, the outcome (a reply, no reply, or a throw) and the calls;
- an imperative method over `Database` whose postcondition is the reference function applied to the old state.

The properties are lemmas about the reference functions.

Files:

- `Common.dfy`:
  - `Option`, and JavaScript truthiness of nullable strings and numbers;
  - `split` and its first part;
  - decimal rendering of integers and its parser, with their round trip.
- `Store.dfy`:
  - the row types and the `Database` class;
  - the messages, replies and outside calls;
  - the relay port 21820 and the `prefix/32` host route.
- `GetConfig.dfy`: `handleGetConfigMessage`.
- `OlmRegister.dfy`: `handleOlmRegisterMessage`.
- `OlmPing.dfy`: `handleOlmPingMessage`, the sweep, and the start/stop guard as the `OfflineChecker` class.
- `MessageHandlers.dfy`: the `messageHandlers` record and its load-time checker start.
- `Targets.dfy`: `addTargets` and `removeTargets`, and the target encoding with its decoder.
- `DomainForm.dfy`: `isValidDomainFormat`, `toPunycode` / `fromPunycode`, `punycodePreview`, the default type and `domainOptions`.
- `SemVer.dfy`: versions and their precedence, the canonical text form and a strict parser, with their round trip.
- `Migrations.dfy`:
  - the migration list;
  - start version, pending filter, run loop and error policy;
  - `executeScripts` and `runMigrations` on a `VersionTable` class.
- `Limits.dfy`: `applyLimitSetToOrg` on a `LimitsTable` class, and `getOrgLimit`.

## Model

| member | source | states |
|---|---|---|
| Store.FindSite | server/routers/newt/handleGetConfigMessage.ts:57-60 | a found site has the asked id and is a row of the table; none is found iff no row has the id |
| Store.FindClient | server/routers/olm/handleOlmRegisterMessage.ts:37-41 | a found client has the asked id and is a row; none iff no row has it |
| Store.FindExitNode | server/routers/newt/handleGetConfigMessage.ts:101-105 | a found exit node has the asked id and is a row; none iff no row has it |
| Store.FindClientSite | server/routers/olm/handleOlmRegisterMessage.ts:172-181 | a found link joins the asked client and site and is a row; none iff no row does |
| Common.PrefixBefore | server/routers/newt/handleGetConfigMessage.ts:113 | `split("/")[0]` is a prefix of the input with no separator, ended by the separator or the input's end |
| Common.Split | server/routers/newt/handleGetConfigMessage.ts:200 | `split` yields at least one part, no part holds the separator, joining the parts restores the input, and the first part is `PrefixBefore` |
| Common.IntToStringRoundTrip | server/routers/client/targets.ts:10 | the parser reads `${n}` back as `n`, for negative numbers too |
| Common.IntToString | server/routers/client/targets.ts:10 | `${n}` is never empty and holds no `:`, `+` or `.`, so it cannot be confused with the target separators |
| Targets.TargetStringRoundTrip | server/routers/client/targets.ts:10 | `port:ip:destPort` decodes to the three fields it was built from, even when the address holds colons |
| Targets.AddTargets | server/routers/client/targets.ts:3-18 | exactly one message is sent, to `newtId`, of type `newt/wg/<protocol>/add`, carrying the one target `${port}:${destinationIp}:${destinationPort}`, which decodes to those three fields |
| Targets.RemoveTargets | server/routers/client/targets.ts:20-35 | the same one target text, under the type `newt/wg/<protocol>/remove` |
| Targets.RemoveUndoesAdd | server/routers/client/targets.ts:10-13 | remove with the arguments of an add carries the identical target list and protocol |
| GetConfig.ReportedRowReturned | server/routers/newt/handleGetConfigMessage.ts:85-97 | the row `returning()` hands back is the row read before, with only key and port replaced |
| GetConfig.ClientsOfSite | server/routers/newt/handleGetConfigMessage.ts:132-136 | the joined rows are exactly the pairs of a client row and a link of this site sharing the client id: each joined row is such a pair, and each such pair is joined |
| GetConfig.PeerFor | server/routers/newt/handleGetConfigMessage.ts:141-204 | a client without a key or subnet is dropped. A client is also dropped when the site has no key, when it is relayed without an exit node, or when no endpoint resolves. Otherwise it gets `[prefix/32]`, endpoint "" iff relayed and else the link endpoint, and an `updatePeer` with the resolved endpoint |
| GetConfig.PeerEntriesExact | server/routers/newt/handleGetConfigMessage.ts:139-209 | the entries are exactly those of the joined clients that survive the filter: every entry is that of a joined client, and every surviving client's entry is present; the order is the join order, by `PeerEntriesAppend` and `PeerIsolation` |
| GetConfig.BuildPeers | server/routers/newt/handleGetConfigMessage.ts:139-209 | the k-th descriptor and the k-th `updatePeer` call are the k-th surviving entry, so both lists keep join order; every surviving client's descriptor and call are in the batch |
| GetConfig.PeerEntriesAppend | server/routers/newt/handleGetConfigMessage.ts:139-205 | peers are assembled client by client: entries of a concatenation concatenate |
| GetConfig.PeerIsolation | server/routers/newt/handleGetConfigMessage.ts:150-205 | one client's entry does not depend on the other clients |
| GetConfig.TargetsWhere | server/routers/newt/handleGetConfigMessage.ts:217-237 | each target of one class is the formatted text of a complete resource of that class, and decodes to its fields |
| GetConfig.SameEncodingAsTargets | server/routers/newt/handleGetConfigMessage.ts:224-225 | a complete resource is formatted exactly as `addTargets` and `removeTargets` format its proxy port, address and destination port |
| GetConfig.ResourcesOfSite | server/routers/newt/handleGetConfigMessage.ts:212-215 | the read resources are exactly the rows of the table that belong to the site |
| GetConfig.PartitionIsFilter | server/routers/newt/handleGetConfigMessage.ts:217-237 | the `reduce` puts exactly the complete resources with protocol "tcp" on the TCP list and every other complete one on the UDP list, in row order |
| GetConfig.HandleGetConfigMessage | server/routers/newt/handleGetConfigMessage.ts:26-260 | the handler's new tables, outcome and calls are the reference run on the old tables |
| GetConfig.GetConfigSilentUntilReady | server/routers/newt/handleGetConfigMessage.ts:34-71 | without a newt, a site id, a valid body, a known site or its endpoint: no reply, no write, no call |
| GetConfig.GetConfigWritesOnlyKeyAndPort | server/routers/newt/handleGetConfigMessage.ts:85-92 | the only write sets the site's `publicKey` and `listenPort` to the reported values; every other table is unchanged |
| GetConfig.GetConfigNotice | server/routers/newt/handleGetConfigMessage.ts:100-128 | the remap notice goes out iff the exit node is reachable and the site had a subnet and a port. Its old destination is the previous subnet prefix and port; its new one is the updated pair |
| GetConfig.NoticeSentWhenDue | server/routers/newt/handleGetConfigMessage.ts:99-128 | a `sendToExitNode` is issued iff the handler proceeds and the previous row names an existing exit node that is reachable, with the site having had a subnet and a port |
| GetConfig.NoticeComesFirst | server/routers/newt/handleGetConfigMessage.ts:111-127 | the exit-node notice, when issued, is the first call, from the previous `subnet` prefix and port to that prefix and the reported port |
| GetConfig.GetConfigReply | server/routers/newt/handleGetConfigMessage.ts:240-259 | when the handler gets past the notice it replies by unicast `newt/wg/receive-config` with the site's address and the target lists of the site's resources |
| GetConfig.GetConfigPeers | server/routers/newt/handleGetConfigMessage.ts:131-209 | the reply's peers are the batch built from the site's joined clients, and the batch's `updatePeer` calls end the call log, in the same order |
| GetConfig.PeersOfSite | server/routers/newt/handleGetConfigMessage.ts:131-209 | every client row linked to the site that passes the filter has its descriptor and its `updatePeer` call in the batch, and every descriptor of the batch is one of theirs |
| GetConfig.GetConfigThrows | server/routers/newt/handleGetConfigMessage.ts:100-128 | it throws exactly when the site names a missing exit node, or the awaited notice rejects |
| GetConfig.UpdatePeerFailuresContained | server/routers/newt/handleGetConfigMessage.ts:184-204 | a rejected `updatePeer` changes neither the reply, the tables nor the calls |
| GetConfig.RelayedPeerUsesRelayPort | server/routers/newt/handleGetConfigMessage.ts:160-204 | a relayed client is updated with `exitNode.endpoint + ":21820"` and announced with endpoint "" |
| OlmRegister.Candidates | server/routers/olm/handleOlmRegisterMessage.ts:54-59 | one `{publicKey, endpoint}` per listed exit node, in list order |
| OlmRegister.SitesOfClient | server/routers/olm/handleOlmRegisterMessage.ts:118-122 | the joined sites are exactly the site rows that have a link of this client |
| OlmRegister.JoinedSitesHaveLinks | server/routers/olm/handleOlmRegisterMessage.ts:172-181 | the link the loop reads again exists for every joined site |
| OlmRegister.AbortIsFinal | server/routers/olm/handleOlmRegisterMessage.ts:138-222 | once the loop is thrown out of, later sites are never visited |
| OlmRegister.HandleOlmRegisterMessage | server/routers/olm/handleOlmRegisterMessage.ts:10-242 | the handler's new tables, outcome and calls are the reference run on the old tables |
| OlmRegister.SendHolepunch | server/routers/olm/handleOlmRegisterMessage.ts:48-80 | the hole-punch calls are the reference list, and it throws iff the legacy message would read the first node of an empty listing |
| OlmRegister.RecordRegistration | server/routers/olm/handleOlmRegisterMessage.ts:82-115 | the new tables are the reference writes: the version, then on a key change the key and every relay flag |
| OlmRegister.ConfigureSite | server/routers/olm/handleOlmRegisterMessage.ts:139-221 | one loop iteration moves the loop state exactly as the reference step for that site |
| OlmRegister.ConfigureSites | server/routers/olm/handleOlmRegisterMessage.ts:138-222 | the loop's calls, configurations and abort are the reference pass over the sites |
| OlmRegister.RegisterSilentUntilReady | server/routers/olm/handleOlmRegisterMessage.ts:16-46 | without an olm, a client id, a public key or the client row: no reply, no write, no call |
| OlmRegister.RegisterHolepunch | server/routers/olm/handleOlmRegisterMessage.ts:48-80 | `olm/wg/holepunch/all` is sent iff the client has an exit node, listing every listed node in order. The legacy `olm/wg/holepunch` with the first node follows iff no version was sent and some node was listed |
| OlmRegister.RegisterEmptyListing | server/routers/olm/handleOlmRegisterMessage.ts:48-79 | with an exit node, no version and an empty listing, the handler throws after the listing and `olm/wg/holepunch/all`, with nothing written |
| OlmRegister.RegisterWrites | server/routers/olm/handleOlmRegisterMessage.ts:82-115 | the version is written iff sent. The key and every relay flag of the client, set to `relay == true`, are written iff the key changed. Nothing else is written, and nothing at all when the listing rejects or the legacy message meets an empty listing |
| OlmRegister.FindClientAfterSetKey | server/routers/olm/handleOlmRegisterMessage.ts:101-106 | after the key write the client row holds the new key |
| OlmRegister.SetOlmVersionTwice | server/routers/olm/handleOlmRegisterMessage.ts:82-89 | writing the same version twice is writing it once |
| OlmRegister.RegisterIdempotent | server/routers/olm/handleOlmRegisterMessage.ts:82-115 | registering again with the same message writes nothing new |
| OlmRegister.RegisterNoSites | server/routers/olm/handleOlmRegisterMessage.ts:117-242 | `olm/register/no-sites` is sent iff the handler gets past the hole punch and the client reaches no site. Unless the handler threw, the reply is the `olm/wg/connect` unicast with `tunnelIP` = client subnet and the configurations of the client's sites, in site order |
| OlmRegister.PassCallsArePeerCalls | server/routers/olm/handleOlmRegisterMessage.ts:138-222 | the loop only calls `deletePeer` and `addPeer` |
| OlmRegister.PassAbortCause | server/routers/olm/handleOlmRegisterMessage.ts:164-190 | the loop is thrown out of only by a rejected peer call, or by a client without a subnet |
| OlmRegister.RegisterThrowsOnlyOnFailure | server/routers/olm/handleOlmRegisterMessage.ts:52-190 | the handler throws only when a call it issued rejects, when the legacy message reads the first node of an empty listing, or when it reads the subnet of a client that has none |
| OlmRegister.StepSkipsUnroutable | server/routers/olm/handleOlmRegisterMessage.ts:139-150 | a site without an exit node or an endpoint is skipped with no call |
| OlmRegister.StepDeletesOldKey | server/routers/olm/handleOlmRegisterMessage.ts:160-170 | for a routable site, `deletePeer(old key)` comes first iff the old key is set and differs, even when the site then lacks a subnet |
| OlmRegister.StepAddsPeer | server/routers/olm/handleOlmRegisterMessage.ts:184-197 | `addPeer` is called iff the link has an endpoint, with `[prefix/32]` and endpoint "" when relaying |
| OlmRegister.StepConfig | server/routers/olm/handleOlmRegisterMessage.ts:199-221 | a pushed configuration describes its site, with `exitNode.endpoint + ":21820"` when relaying and else the site endpoint. A relaying site whose exit node is missing is left out |
| OlmRegister.PassKeepsSiteOrder | server/routers/olm/handleOlmRegisterMessage.ts:138-222 | a completed loop's configurations are those of the configured sites, in site order |
| OlmPing.Seconds | server/routers/olm/handleOlmPingMessage.ts:80 | `Math.floor(ms / 1000)`: the greatest `s` with `1000 s <= ms` |
| OlmPing.SecondsMonotone | server/routers/olm/handleOlmPingMessage.ts:23 | `Math.floor(ms / 1000)` is monotone: a later time never gives an earlier second |
| OlmPing.HandleOlmPingMessage | server/routers/olm/handleOlmPingMessage.ts:61-98 | the handler's new tables and reply are the reference ping on the old tables |
| OlmPing.PingReply | server/routers/olm/handleOlmPingMessage.ts:65-97 | a unicast `pong` is returned iff olm and client id exist, whether or not the write fails |
| OlmPing.PingStampsOnlyClient | server/routers/olm/handleOlmPingMessage.ts:77-83 | only that client's rows change, to `lastPing = floor(now/1000)` and online; no other table changes |
| OlmPing.PingNeverSetsOffline | server/routers/olm/handleOlmPingMessage.ts:81 | a ping never takes a client offline |
| OlmPing.SweepExact | server/routers/olm/handleOlmPingMessage.ts:23-37 | the sweep sets `online := false` exactly for online clients whose `lastPing` is null or below `floor((now - 120000)/1000)`, and changes nothing else |
| OlmPing.SweepIdempotent | server/routers/olm/handleOlmPingMessage.ts:26-37 | sweeping twice at one time is sweeping once |
| OlmPing.PingKeepsOnline | server/routers/olm/handleOlmPingMessage.ts:10-37 | a client that pinged within the threshold survives the sweep |
| OlmPing.SilenceTakesOffline | server/routers/olm/handleOlmPingMessage.ts:10-37 | a client silent for the threshold plus a second is taken offline |
| OlmPing.StartGuard | server/routers/olm/handleOlmPingMessage.ts:16-21 | start leaves a running checker alone, and otherwise arms exactly one new interval |
| OlmPing.StopGuard | server/routers/olm/handleOlmPingMessage.ts:50-56 | stop clears the handle so a later start arms again; stop while stopped does nothing |
| OlmPing.OfflineChecker.Start | server/routers/olm/handleOlmPingMessage.ts:16-45 | the checker's new state is the guarded start of the old |
| OlmPing.OfflineChecker.Stop | server/routers/olm/handleOlmPingMessage.ts:50-56 | the checker's new state is the stop of the old |
| OlmPing.OfflineChecker.Tick | server/routers/olm/handleOlmPingMessage.ts:21-42 | one firing replaces the clients by their sweep, or leaves them when the update rejects |
| MessageHandlers.Dispatch | server/routers/ws/messageHandlers.ts:19-31 | a handler is found iff the type is a key of the record, and it is the handler registered under that type |
| MessageHandlers.DispatchModelledHandlers | server/routers/ws/messageHandlers.ts:21-25 | `newt/wg/get-config`, `olm/wg/register` and `olm/ping` reach the get-config, register and ping handlers |
| MessageHandlers.TableRoundTrip | server/routers/ws/messageHandlers.ts:19-31 | every handler is registered under its own type and under no other |
| MessageHandlers.TableKeys | server/routers/ws/messageHandlers.ts:19-31 | the keys are exactly the eleven listed types; outbound `pong` has no handler |
| MessageHandlers.TableSize | server/routers/ws/messageHandlers.ts:19-31 | there are eleven distinct keys |
| MessageHandlers.Load | server/routers/ws/messageHandlers.ts:19-33 | loading yields the record and leaves the checker in the guarded started state |
| DomainForm.Utf16Length | src/components/CreateDomainForm.tsx:81-86 | `length` counts one unit per basic-plane character and two above it |
| DomainForm.ScanLabelsSplit | src/components/CreateDomainForm.tsx:70 | the pattern's automaton accepts exactly whitespace-free text whose dot-separated labels are non-empty |
| DomainForm.PatternExact | src/components/CreateDomainForm.tsx:70-74 | the pattern holds iff there is no leading `://`, no whitespace and no empty label |
| DomainForm.IsValidDomainFormat | src/components/CreateDomainForm.tsx:69-91 | the method's verdict is the reference predicate: pattern, per-label checks in order, then the length |
| DomainForm.ValidDomainExact | src/components/CreateDomainForm.tsx:69-91 | a name is accepted iff it passes all the checks. These are: no leading `://`, no whitespace, no empty label, no label starting or ending with `-`, no label over 63 units, no name over 253 |
| DomainForm.RejectsMalformed | src/components/CreateDomainForm.tsx:70-74 | whitespace, a leading `://`, an empty name, or a leading, trailing or doubled dot is rejected |
| DomainForm.RejectsBadLabels | src/components/CreateDomainForm.tsx:77-88 | a hyphen at a label's end, a label over 63 units, or a name over 253 is rejected |
| DomainForm.ScanLabelsDots | src/components/CreateDomainForm.tsx:70 | in an accepted name every dot is followed by a label character |
| DomainForm.LowerIdempotent | src/components/CreateDomainForm.tsx:169 | lowercasing twice is lowercasing once |
| DomainForm.Lower | src/components/CreateDomainForm.tsx:169 | the result has the input's length and maps each ASCII capital to its small letter, keeping every other character |
| DomainForm.PreviewRule | src/components/CreateDomainForm.tsx:166-170 | the preview is "" for an empty input, or when the conversion equals the lowercased input; otherwise it is the conversion |
| DomainForm.PreviewIgnoresCase | src/components/CreateDomainForm.tsx:166-170 | given the same conversion result, the preview of the lowercased input is the preview of the input |
| DomainForm.DefaultIsOffered | src/components/CreateDomainForm.tsx:128-194 | the default type is always offered, and wildcard is offered iff it is the default |
| SemVer.CompareTextProps | server/setup/migrationsSqlite.ts:136-144 | ASCII order of alphanumeric identifiers is antisymmetric, and 0 only for equal identifiers |
| SemVer.Compare | server/setup/migrationsSqlite.ts:138 | `semver.compare` yields -1, 0 or 1 |
| SemVer.CompareProps | server/setup/migrationsSqlite.ts:136-144 | comparison is antisymmetric, and 0 exactly when the versions agree up to build metadata |
| SemVer.LtOrder | server/setup/migrationsSqlite.ts:136-144 | `<` is irreflexive, asymmetric, transitive, and total up to precedence |
| SemVer.ComparePreProps | server/setup/migrationsSqlite.ts:136-144 | pre-release lists compare antisymmetrically, and 0 only when equal |
| SemVer.PrereleaseBelowRelease | server/setup/migrationsSqlite.ts:136-144 | a pre-release sits below its release |
| SemVer.SectionElevenChain | server/setup/migrationsSqlite.ts:136-144 | the example chain of section 11.4 (alpha < alpha.1 < alpha.beta < beta < beta.2 < beta.11 < rc.1 < release) holds |
| SemVer.CompareIgnoresBuild | server/setup/migrationsSqlite.ts:136-144 | build metadata never affects precedence |
| SemVer.ParseRender | server/setup/migrationsSqlite.ts:136-144 | every well-formed version parses back from its canonical text |
| Migrations.ListWellFormed | server/setup/migrationsSqlite.ts:38-63 | the list has 23 entries, each a well-formed version |
| Migrations.TextsAreVersions | server/setup/migrationsSqlite.ts:38-63 | each listed text parses to its version |
| Migrations.RenderedTexts | server/setup/migrationsSqlite.ts:38-63 | each listed text is the canonical form of its version |
| Migrations.AppVersionIsLast | server/lib/consts.ts:5 | `APP_VERSION` parses to the last listed version |
| Migrations.ListAscending | server/setup/migrationsSqlite.ts:38-63 | the list is strictly ascending in precedence (beta.9 < beta.10 < 1.0.0) |
| Migrations.ParseAll | server/setup/migrationsSqlite.ts:130-139 | the recorded texts parse one for one, or one of them fails |
| Migrations.Greatest | server/setup/migrationsSqlite.ts:136-139 | the head of the descending sort is a recorded version that no recorded version exceeds |
| Migrations.StartVersion | server/setup/migrationsSqlite.ts:139 | `APP_VERSION` when nothing is recorded, else a greatest recorded version |
| Migrations.Pending | server/setup/migrationsSqlite.ts:142-144 | as a set, exactly the listed versions strictly above the start, and none when none is above; the order is stated by PendingAppend |
| Migrations.PendingAppend | server/setup/migrationsSqlite.ts:142-144 | the filter keeps list order: the plan of a concatenation is the plan of its front followed by that of its back |
| Migrations.PendingIsSuffix | server/setup/migrationsSqlite.ts:142-152 | on the ascending list the pending migrations are a suffix of it |
| Migrations.PendingAll | server/setup/migrationsSqlite.ts:142-144 | when every listed version is above the start, all of them are pending |
| Migrations.NothingAboveLast | server/setup/migrationsSqlite.ts:142-144 | with a start at or above the last listed version nothing is pending |
| Migrations.LastIsPending | server/setup/migrationsSqlite.ts:142-152 | a nonempty plan always ends with the last listed version |
| Migrations.RunPrefixIsRun | server/setup/migrationsSqlite.ts:152-189 | the iteration-by-iteration loop agrees with the front-to-back reading |
| Migrations.Run | server/setup/migrationsSqlite.ts:152-189 | only pending versions are ever recorded |
| Migrations.RunRecordsNoErrors | server/setup/migrationsSqlite.ts:161-182 | a migration that raised any error is never recorded |
| Migrations.RunStoppedIff | server/setup/migrationsSqlite.ts:175-188 | the run stops iff some pending migration fails with an error other than a unique-constraint one |
| Migrations.RunCleanRecordsAll | server/setup/migrationsSqlite.ts:152-174 | with no error every pending migration is recorded in order and the run does not stop |
| Migrations.RunPolicy | server/setup/migrationsSqlite.ts:152-189 | only migrations without an error are recorded. The run stops iff some migration fails with a non-unique error. With no error every pending migration is recorded, in order |
| Migrations.RunStopsAtError | server/setup/migrationsSqlite.ts:175-188 | after a non-unique error nothing later runs: the record is that of the migrations before it |
| Migrations.VersionTable.RunPending | server/setup/migrationsSqlite.ts:152-189 | the loop appends the texts of the recorded migrations and reports the stop, as the reference run |
| Migrations.VersionTable.ExecuteScripts | server/setup/migrationsSqlite.ts:130-196 | table and result are the reference `executeScripts` |
| Migrations.VersionTable.RunMigrations | server/setup/migrationsSqlite.ts:93-128 | table and result are the reference `runMigrations` |
| Migrations.CleanRunRecordsAll | server/setup/migrationsSqlite.ts:152-170 | with no failure every pending version is appended and the run completes |
| Migrations.UpToDateRunsNothing | server/setup/migrationsSqlite.ts:136-152 | a table already at the last listed version is left as it is |
| Migrations.RerunIsNoOp | server/setup/migrationsSqlite.ts:130-196 | after a clean run, running again changes nothing |
| Migrations.FreshInstallRunsNothing | server/setup/migrationsSqlite.ts:94-120 | a fresh database records `APP_VERSION`, after which a start runs no script |
| Migrations.DisabledDoesNothing | server/setup/migrationsSqlite.ts:94-97 | `DISABLE_MIGRATIONS` leaves the table alone |
| Migrations.OnlyAppendsListedVersions | server/setup/migrationsSqlite.ts:93-189 | the table only grows, and only by listed version texts or `APP_VERSION` |
| Limits.LimitId | server/lib/billing/limitsService.ts:14 | the id is the org id, a `-`, then the feature id |
| Limits.Without | server/lib/billing/limitsService.ts:12 | the delete keeps exactly the rows of other organisations |
| Limits.RowsOf | server/lib/billing/limitsService.ts:13-19 | one row per entry, in entry order, each built from the org id and its entry |
| Limits.OrgRows | server/lib/billing/limitsService.ts:12 | exactly the rows of the given organisation |
| Limits.WithoutIdempotent | server/lib/billing/limitsService.ts:12 | deleting an organisation's rows twice is deleting them once |
| Limits.Find | server/lib/billing/limitsService.ts:28-32 | the lookup returns the first row with the id, or none iff no row has it |
| Limits.OrgLimit | server/lib/billing/limitsService.ts:23-35 | with a unique key, the value of the row with id `orgId-featureId`; none when no row has that id |
| Limits.LimitsTable.ApplyLimitSetToOrg | server/lib/billing/limitsService.ts:7-21 | the table and the commit flag are the reference transaction |
| Limits.InsertFailureIsFinal | server/lib/billing/limitsService.ts:11-20 | a failed insert rolls back the whole transaction, whatever follows |
| Limits.InsertAllExact | server/lib/billing/limitsService.ts:13-19 | the inserts commit iff the key stays unique with every new row, and then the rows are appended one per entry |
| Limits.ApplyExact | server/lib/billing/limitsService.ts:11-20 | apply keeps the key unique. It commits iff no new id is taken. A commit leaves the other orgs' rows plus one row per entry; a rollback leaves the table unchanged |
| Limits.ApplyReplacesOrgRows | server/lib/billing/limitsService.ts:11-20 | after a commit the org's rows are exactly one per entry, with id `orgId-featureId` and the entry's value and description. Every other org's rows are as before |
| Limits.ApplyThenLookup | server/lib/billing/limitsService.ts:14-34 | after a commit `getOrgLimit(org, f)` is `f`'s value in the set |
| Limits.ApplyDropsOmitted | server/lib/billing/limitsService.ts:12-34 | after a commit a feature absent from the set has no limit, unless another org's row has the same composite id |
| Limits.ApplyTwice | server/lib/billing/limitsService.ts:11-20 | applying the same set twice leaves the table of one application |
| Limits.CompositeIdsCollide | server/lib/billing/limitsService.ts:14 | org `a` with feature `b-c` and org `a-b` with feature `c` share an id, so the second apply rolls back |

## Left out

- Real I/O is left out. This covers the WebSocket transport, the network effects of the outside calls, logging, `setInterval` timing, and races between concurrently running handlers. Calls are entries of a log, and their failures are a parameter.
- `sendToClient` is taken never to fail. The un-awaited `olm/register/no-sites` send is an entry of the log like any other.
- Database reads never fail. A failing write is modelled only where the source catches it: the ping's update and the sweep.
- The `now` computed at the top of the get-config and register handlers is unused, and the commented-out hole-punch age check is not modelled.
- Joins deliver rows in link-table order. SQL gives no order without `ORDER BY`, and this is one admissible choice.
- Input parsing is reduced to a predicate: the get-config body must have a string `publicKey` and a positive integer `port`. zod's error text is not modelled.
- `relay` in the register body is an optional boolean. A non-boolean truthy `relay` (for which `relay == true` and `relay` differ) is not modelled.
- The ISO timestamp of the `pong` and the `executedAt` column of version records are left out, with no effect on the stated properties.
- The punycode `toASCII` / `toUnicode` algorithm of RFC 3492 is opaque. Each conversion is a parameter whose `None` stands for a throw.
- DomainForm.ToPunycode, DomainForm.FromPunycode: plain definitions of the two fallbacks of `toPunycode` and `fromPunycode` (src/components/CreateDomainForm.tsx:51-67). The conversions `toASCII` and `toUnicode` are parameters, so nothing further is proved about them; ToPunycode is used by PunycodePreview, whose behaviour PreviewRule states, and FromPunycode only feeds display text.
- DomainForm.Lower: only ASCII capitals are lowercased, where JavaScript's `toLowerCase` covers all of Unicode.
- The form's JSX, hooks, zod schema and translation strings are left out. So are the build flag and the DNS flag, which become parameters.
- SemVer.Parse: strict SemVer 2.0.0 text only. The `semver` package also trims whitespace and accepts a leading `v` or `=`, and enforces length and safe-integer limits; none of this is modelled. Every text the runner itself writes is canonical, so this only matters for hand-edited version rows.
- The database backup before each migration, drizzle's `migrate` for a fresh database, and the day-long sleep after a failure are left out. The scripts themselves are opaque: the outcome of each migration is given as an error map.
- Migrations.VersionTable.RunMigrations: whether the version insert on a fresh database fails is a parameter (`freshInsertFails`). Whether the database file exists is a parameter (`dbExists`).
- The foreign key from `limits.orgId` to `orgs` is not modelled: inserts for an unknown organisation are taken to succeed. Primary-key collisions are modelled.
- Numbers are unbounded integers. JavaScript's switch to exponent notation at 1e21 in `${n}` is out of range for ports and ids, and is not modelled.
- Only the three core handlers behind the dispatch table are modelled. The other eight (newt register, bandwidth, relay, docker status and containers, newt ping request, blueprint apply, health-check status) are named in the table only.
- The get-config exit-node notice is awaited without a `try`, so its failure makes the handler throw after the site row was written. The model follows the code here rather than treating the notice as fire-and-forget.
- The legacy `olm/wg/holepunch` message reads `allExitNodes[0]` without a length check. Over an empty listing the model follows the code: the handler throws after `olm/wg/holepunch/all`, before any write.
