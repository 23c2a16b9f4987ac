# oh-my-lan, verified

oh-my-lan connects a user's devices through one server. Each device publishes services on public ports of
the server (chisel reverse tunnels) and forwards local ports to other devices' services (chisel forward
tunnels). The server keeps devices, services, forwards, enrollment tokens and alert state in SQLite; each
device's daemon polls a bootstrap derived from these tables and runs the tunnels it lists.

This project models the control plane, the client code that turns the tables into running tunnels, and the
smaller cores beside them, and proves what they promise.

## How the files fit together

- `schema.dfy`: the tables as values, their constraints, and every SQL statement as one atomic step (SQLite
  runs on one connection). `store.dfy` is the store as a class over mutable tables, each method equal to its
  statement; `bootstrap.dfy` is the view handed to a device and the joins behind it.
- `control_plane.dfy`: a state machine with any number of handlers in flight. A handler that checks first
  and acts later, or reads twice, is split where another one can come in between: port allocation, forward
  insert, token use, the two queries of a bootstrap. `guarantees.dfy` states what holds of all its runs from
  an empty store; `requests.dfy` traces stored rows back to requests, `mesh.dfy` follows a forward to the two
  specs it comes to, `rebinding.dfy` follows a run that goes wrong.
- `effects.dfy`: what each change to the tables does to the bootstraps of all devices, and what undoes it.
- `server.dfy`: the handlers as methods over the store, the tunnel server and the port allocator, each equal
  to its steps of the machines. `tunnel_users.dfy`: the tunnel's user set against the device table.
- `local_addr.dfy`, `chisel_spec.dfy`, `reload_key.dfy`, `timestamps.dfy`, `base64.dfy`, `phc.dfy`,
  `url_escape.dfy`: texts that other code reads back. `text.dfy`, `sorting.dfy`, `wrappers.dfy` serve them.
- `daemon.dfy`: sessions, reloads and backoff of the client.
- `login_limiter.dfy`, `sessions.dfy`, `offline_alerts.dfy`, `migrations.dfy`, `ring_buffer.dfy`: the
  stateful cores with whole-history specifications.

## Main results

1. In every reachable state the bootstraps of all devices join up: each local entry ends at exactly one
   remote entry, and the two spec texts, read back, form the tunnel that the tables ask for. Every bootstrap that is sent, whatever happens between its two queries, passes validation,
   and no two of its rules collide.
2. The daemon's reload text tells any two bootstraps apart that differ in more than order and BindLocal, so
   while it keeps polling it runs what the server says.
3. A token makes at most one device and ports never collide; whoever loses a token, a port or a service after
   checking for it lost to a step of another handler. Deleting a device is the least change that keeps the
   foreign keys.
4. The login limit is soft by exactly the number of logins in flight.
5. Migrations resume from any failure; offline alerts go out once per outage; PHC strings, chisel specs,
   base64 and timestamps are read back as they were meant.

## Where the code does less than it says

- `TunnelUsers.OverlappingHandlers`: handlers of one device that overlap can leave a tunnel user without a
  device, exactly when the last change of the user was an addition, by a kick or by an enroll that is kept,
  and the row goes. The comment on kick says nothing can come between its two calls, but its row lookup comes
  before them: `TunnelUsers.KickCanFinishLast` has a revoke in between, `TunnelUsers.KickCanOutliveRollback`
  a rollback, `TunnelUsers.EnrollCanFinishLast` a revoke before AddDevice. Revokes and rolled-back enrolls
  alone leave nothing (`TunnelUsers.RemovalsLeaveNothing`).
- `TunnelUsers.CrashWhileRevoking`: a crash between locking and deleting a row leaves a locked row. After a
  restart that device is a tunnel user again, and the SSH reaper later deletes only the row.
- `ReloadKey.BindLocalGoesUnseen`: the reload key leaves out BindLocal. No statement changes it on a stored
  service (`Schema.ServiceRowsAfter`), but a service that is deleted and added again on the same port can
  differ in it alone. `Rebinding.RebindGoesUnseen` has that run from every reachable state whose pool gives
  the port out again, `Rebinding.RebindingHappens` reaches such a state, and by
  `Rebinding.DaemonKeepsOldBinding` the daemon then keeps the old binding.
- `LocalAddr.NormalizeTwiceIff`: normalising is not idempotent, exactly on inputs that bracket a host without
  colons that begins with a space; `LocalAddr.NormalizeFixpoints` says which addresses are already normal.
- `ReloadKey.RawNewlineForges`: the canonical text is not faithful on arbitrary addresses; it is on every
  address that `NormalizeLocalAddr` returns, newlines inside a host included.
- `Timestamps.WholeSecondSortsLast`: trimmed fractions sort wrongly within one second, and
  `Timestamps.TextOrderIsTimeOrder` says exactly when.
- `Effects.RollbackSpendsToken`: an enroll that is rolled back leaves its token used.
- `OfflineAlerts.ThresholdIsRightIff`: an alert threshold of more than 9223372036 seconds wraps around, and
  nothing keeps it smaller.
- `Phc.ParsePrint`: numbers beyond the width of their field wrap around silently.

## Assumptions

- SHA-256 is injective; digests are compared by what they digest. argon2 is a function parameter. Random
  identifiers, secrets, clock readings and the success of foreign calls are inputs.
- Text is a sequence of Unicode scalar values; byte order of UTF-8 is their order.
- Storage does not fail except where a fault is an input (migrations, alert pushes), and adding a tunnel
  user does not fail. A failed commit has changed nothing.
- Timestamps are UTC with years 0 to 9999, printed as sections 5.1 and 5.6 of RFC 3339 have it, with the
  fraction trimmed as Go trims it.
- A chisel spec is read as its documentation has it: an optional `R:`, bind address, port, host and port to
  dial, an optional `/udp`.
- `net.SplitHostPort`, `strconv.Atoi`, `strings.Split`, `fmt.Sscanf` and `base64.RawStdEncoding` (sections
  3.2 and 4 of RFC 4648) are modelled from their documented behaviour; they are not part of the repository.

## Model

| member | source | states |
|---|---|---|
| `Guarantees.MeshRoutesClose` | internal/server/device/device.go:288-336 | In every reachable state each local entry of any device's bootstrap, taken from that state, ends at exactly one remote entry (same public port and protocol) among the bootstraps of all devices |
| `Guarantees.SentTunnelsClose` | internal/server/device/device.go:296-301 | Each local entry of a bootstrap that is sent ends at exactly one remote entry, among those of all devices, of the moment its forwards were read |
| `Guarantees.SentIsSendable` | internal/server/device/device.go:296-301 | Whatever any run sends has its services from one reachable state and its forwards from a later one, with any steps of other handlers in between |
| `Guarantees.ServicesWereRead` | internal/server/device/device.go:296 | A handler about to read its forwards carries exactly the enabled services of its device at its own earlier query |
| `Guarantees.BootstrapsRun` | internal/server/device/device.go:296-334 | Every bootstrap the server can send, its two queries answered in different states included, becomes rules that all pass Validate, with pairwise distinct public ports, distinct local ports and distinct specs, across both lists |
| `Guarantees.ReloadTextIsFaithful` | internal/client/daemon.go:234-248 | For any two bootstraps the server can send a device, each with its two queries answered in different states, the reload texts are equal if and only if the rules are, up to order and BindLocal; newlines inside a host do no harm |
| `Guarantees.TokensAreSingleUse` | internal/store/token.go:44-82 | In any interleaving of enrolling handlers a token becomes a device at most once, also after that device is deleted |
| `Guarantees.CheckedBeforeExpiry` | internal/enroll/enroll.go:84-105 | An enrolling handler was let in by its own earlier check, on a token unused and unexpired at the time of that check, and has been in flight since |
| `Guarantees.TokenLostToAnother` | internal/store/token.go:44-82 | A consume that passed its check and finds its token gone lost it to another handler's successful consume after that check |
| `Guarantees.FailedConsumeChangesNothing` | internal/store/token.go:44-82 | A consume that fails (spent token, duplicate device name) leaves tokens and devices as they were |
| `Guarantees.EnrollSpends` | internal/store/token.go:60-82 | A successful consume finds the token unspent, leaves it spent, and adds a device row that was not there |
| `Guarantees.PoolBoundsServices` | internal/server/api/api.go:286-304 | With a fixed pool and any number of racing handlers, stored ports are distinct, lie in the pool, and services never outnumber it |
| `Guarantees.HeldPortWasFree` | internal/server/api/api.go:286-304 | A port a handler holds was the lowest free one at its own Allocate, and the handler has held it since |
| `Guarantees.PortLostToAnother` | internal/server/device/device.go:167-193 | An insert loses on its port only if another handler stored that port between this handler's Allocate and its insert |
| `Guarantees.InsertRefusals` | internal/server/device/device.go:193-200 | An insert is refused as a duplicate if and only if its port, its name on that device or its id is taken; otherwise it adds exactly its port |
| `Guarantees.ForwardLostToDelete` | internal/server/device/device.go:354-385 | A forward insert that finds its service gone lost it to a delete of that service or of its device after this handler's lookup |
| `Requests.ServiceAsRequested` | internal/server/device/device.go:145-200 | A service that is inserted has what its handler's request said, is bound locally unless the request says otherwise, is enabled, and has the port that was the lowest free one at its Allocate |
| `Requests.ForwardAsRequested` | internal/server/device/device.go:370-385 | A forward that is inserted has what its handler's request said, and is enabled |
| `Requests.DeviceAsRequested` | internal/enroll/enroll.go:106-139 | A device that enrolls has the name its check was given, starts offline and has no SSH account |
| `Requests.AdmittedIff` | internal/server/device/device.go:152-166 | A request to add a service is admitted if and only if it has a name, a known protocol and an address that normalises |
| `Guarantees.StaleWithinOneSecond` | internal/store/device.go:106-119 | The stale sweep takes every online device last seen a second or more before the cutoff and spares every one seen a second or more after it |
| `Guarantees.LockedWithinOneSecond` | internal/store/device.go:157-161 | The cutoff of the SSH reaper is off by less than a second |
| `ControlPlane.RunKeepsInv` | internal/server/device/device.go:145-203 | Any run of handlers, statements and restarts keeps every key, foreign key, port range and normalised address, in the tables and in the handlers in flight |
| `ControlPlane.FirstFreeIsLowest` | internal/server/api/api.go:299-303 | The scan returns the smallest port of the pool that is not stored, and reports exhaustion if and only if all are stored |
| `ControlPlane.PoolIsRange` | internal/config/server.go:72-77 | A configured pool is accepted if and only if 1 <= min <= max <= 65535 |
| `ControlPlane.ExecuteKeepsDb` | internal/store/service.go:30-42 | A statement with a port in range and a normalised address keeps all constraints and all stored values in range |
| `Schema.ExecuteKeepsIntegrity` | internal/store/migrations/0001_init.sql:1-31 | Every statement keeps every primary key, UNIQUE key, CHECK and foreign key |
| `Schema.CascadeIsLeast` | internal/store/migrations/0001_init.sql:23 | Deleting a device is the least change: among all ways to drop rows so that the device is gone and foreign keys hold, it keeps the most |
| `Schema.CascadeIsExact` | internal/store/device.go:238-248 | Deleting a device removes exactly it, its services, its forwards and others' forwards to its services, frees exactly those services' ports, and leaves used tokens used |
| `Schema.ServiceRowsAfter` | internal/store/service.go:30-42 | No statement changes a stored service's port, name, protocol, address or bind flag: a row is an old one with the same rule or the one just inserted |
| `Schema.ForwardRowsAfter` | internal/store/forward.go:20-31 | After any statement each forward row is an old row with the same rule or the row just inserted |
| `Schema.TokenRowsAfter` | internal/store/token.go:44-82 | No statement ever makes a used token unused or forgets one |
| `Bootstrap.JoinsAreLookups` | internal/store/forward.go:83-135 | Under integrity the LEFT JOINs give exactly what nested lookups give, with no row null-filled, and the INNER JOIN loses no service |
| `Bootstrap.CountsAddUp` | internal/store/metrics.go:22-42 | Per-device service and forward counts sum to the table totals |
| `Bootstrap.EntriesAddUp` | internal/server/device/device.go:312-327 | The remote entries of all bootstraps are as many as the enabled services; the local entries as many as the enabled forwards to enabled services |
| `Bootstrap.MeshCloses` | internal/server/device/device.go:312-334 | Under integrity a local entry has one remote entry at its port, on one device |
| `Bootstrap.BootToSpecs` | internal/client/daemon.go:211-230 | The two loops copy every column of every entry into a rule, in order |
| `Effects.RemoteByRow` | internal/server/device/device.go:312-323 | A device's remote entries are exactly its enabled service rows, column by column |
| `Effects.LocalByRow` | internal/server/device/device.go:324-334 | Its local entries are exactly its enabled forwards to enabled services, with the service's port and protocol |
| `Mesh.ForwardReachesService` | internal/server/device/device.go:306-334 | In every reachable state the spec of a forward listens where the forward says and dials its service's public port; the spec of that service on its own device listens there and dials the service's address; and no other spec of any device listens there |
| `Mesh.SentRuleDialsOneService` | internal/server/device/device.go:296-334 | Each forward rule of a bootstrap that is sent dials the public port of exactly one service, the enabled one its forward names |
| `Bootstrap.RemoteEntriesSound` | internal/server/device/device.go:312-323 | Remote entries of a sound store are valid rules over normalised addresses, one per public port |
| `Bootstrap.LocalEntriesApart` | internal/store/migrations/0002_forwards.sql:11 | A device's local entries have distinct local ports |
| `Effects.AddedServiceShows` | internal/server/device/device.go:182-200 | A new service adds exactly its own entry to its own device's bootstrap and changes no other entry of any device |
| `Effects.AddedForwardShows` | internal/server/device/device.go:370-385 | A new forward adds exactly its entry to its owner's bootstrap, if the service is enabled, and changes nothing else |
| `Effects.DisabledServiceVanishes` | internal/server/device/device.go:312-327 | Disabling a service takes exactly its entry and every device's tunnels to its port |
| `Effects.DisabledForwardVanishes` | internal/server/device/device.go:324-327 | Disabling a forward takes exactly its entry |
| `Effects.ProbeIsRecorded` | internal/store/service.go:173-182 | A probe records its time and result in the row of its service and changes nothing else |
| `Effects.DeletedDeviceVanishes` | internal/store/device.go:238-248 | Deleting a device empties its bootstrap and takes from the others exactly the tunnels to ports that are gone |
| `Effects.UndoRestores` | internal/store/service.go:159-194 | Adding and deleting a service or a forward restores the database, and so does switching one away and back |
| `Effects.RollbackSpendsToken` | internal/server/device/device.go:105-111 | A rolled-back enroll restores everything but the token, which stays used and names no device |
| `Store.Store.CreateEnrollmentToken` | internal/store/token.go:20-32 | The insert is the statement InsertToken, with its duplicate cases |
| `Store.Store.GetEnrollmentTokenByHash` | internal/store/token.go:34-42 | Finds a token with this hash if there is one |
| `Store.Store.ConsumeEnrollmentToken` | internal/store/token.go:44-82 | Read, insert and mark as one transaction: exactly one unused token with this hash is marked for the new device, or nothing changes |
| `Store.Store.ListDevices` | internal/store/device.go:70-87 | Every device once, by creation time as text |
| `Store.Store.UpdateDeviceStatus` | internal/store/device.go:89-104 | Sets status and last-seen of one device, or reports that there is none |
| `Store.Store.MarkStaleDevicesOffline` | internal/store/device.go:106-119 | Sets exactly the stale online devices offline and counts them |
| `Store.Store.SetDeviceSSH` | internal/store/device.go:125-137 | Fills in the SSH columns of one device |
| `Store.Store.MarkDeviceSSHLocked` | internal/store/device.go:141-153 | Locks one device and sets it offline |
| `Store.Store.ListSSHLockedBefore` | internal/store/device.go:157-180 | Lists exactly the devices locked before the cutoff |
| `Store.Store.DeleteDevice` | internal/store/device.go:238-248 | Deletes the row with its two-level cascade |
| `Store.Store.CreateService` | internal/store/service.go:30-42 | Inserts or reports which constraint refuses |
| `Store.Store.UsedPublicPorts` | internal/store/service.go:141-157 | Lists exactly the stored ports |
| `Store.Store.SetServiceEnabled` | internal/store/service.go:159-171 | Switches one service |
| `Store.Store.DeleteService` | internal/store/service.go:184-194 | Deletes the service and the forwards to it |
| `Store.Store.CreateForward` | internal/store/forward.go:20-31 | Inserts or reports which constraint refuses |
| `Store.Store.SetForwardEnabled` | internal/store/forward.go:53-65 | Switches one forward |
| `Store.Store.DeleteForward` | internal/store/forward.go:137-147 | Deletes one forward |
| `Store.Store.ListServicesByDevice` | internal/store/service.go:51-60 | Each service of the device once, by creation |
| `Store.Store.ListServicesJoined` | internal/store/service.go:84-139 | Exactly the stored services of the device asked for, or all, each once with its device's name, by creation text |
| `Store.Store.ListForwardsJoined` | internal/store/forward.go:83-135 | Each forward once with its joined columns; by local port for one owner, by creation text for all |
| `Store.Store.ListDevicesWithCounts` | internal/store/device.go:186-235 | Each device once with its own counts, and the counts sum to the table sizes |
| `Store.Store.LoadCounts` | internal/store/metrics.go:22-42 | Devices, services and forwards are the sums over any device listing; online devices are those not offline; enabled services are all remote entries, and enabled forwards all local entries together with those whose service is switched off |
| `Store.Store.MarkDeviceAlerted` | internal/store/bark.go:67-74 | Upserts the alert row; fails only for a missing device |
| `Store.Store.ClearDeviceAlert` | internal/store/bark.go:76-79 | Removes the alert row |
| `Server.TunnelServer.AddDevice` | internal/tunnel/server.go:68-77 | The user index gains the device with this secret, and the mirror agrees with the index |
| `Server.TunnelServer.RemoveDevice` | internal/tunnel/server.go:80-85 | Index and mirror lose the device |
| `Server.TunnelServer.HasDevice` | internal/tunnel/server.go:89-94 | The mirror answers what the index holds |
| `Server.PortAllocator.Allocate` | internal/server/api/api.go:286-304 | The map and the scan compute the lowest free port of the pool |
| `Server.Server.HandleAddService` | internal/server/device/device.go:145-204 | The handler alone is the three steps start, allocate, insert of the machine; it answers "created" if and only if the store changed, and its four refusals are fixed by the request, the pool and the constraint |
| `Server.ServiceAnswerMeans` | internal/server/device/device.go:152-200 | 400 for a malformed request, else 503 when every pool port is stored, else 409 for a taken name or id, else 500 without the device, else 201 |
| `Server.Server.HandleAdminCreateService` | internal/server/admin/admin.go:129-189 | The same for an admin, who must name an existing device; a malformed request is refused before the device is looked up |
| `Server.Server.HandleServiceItem` | internal/server/device/device.go:224-281 | Deletes (204) or switches (200) the caller's own service; any other id is "not found", any other action "method not allowed", and both change nothing |
| `Server.Server.HandleAddForward` | internal/server/device/device.go:339-395 | The handler alone is the two steps start and insert of the machine; its answer is fixed by the request, the service lookup and the constraint |
| `Server.ForwardAnswerMeans` | internal/server/device/device.go:345-385 | 400 for a malformed request, else 404 without the service, else 409 for a taken local port or id, else 500 without the owner, else 201 |
| `Server.Server.HandleAdminCreateForward` | internal/server/admin/admin.go:248-301 | The same for an admin, who must name an existing owner |
| `Server.Server.HandleForwardItem` | internal/server/device/device.go:419-484 | Deletes (204) or switches (200) the caller's own forward; any other id is "not found", any other action "method not allowed", and both change nothing |
| `Server.Server.HandleBootstrap` | internal/server/device/device.go:288-336 | With nothing in between, the handler is the machine's status update and its two reads, and returns exactly the enabled services and the enabled forwards to enabled services, each once |
| `Server.Server.HandleDiscover` | internal/server/device/device.go:486-519 | Returns exactly the enabled services of other devices, each once, with the device name |
| `Server.Server.IssueToken` | internal/enroll/enroll.go:45-70 | The new token passes the check phase at a time if and only if that time is before its expiry; no time to live means 24 hours |
| `Server.Server.EnrollDevice` | internal/enroll/enroll.go:84-139 | The call alone is check then consume; every refusal leaves the store unchanged |
| `Server.EnrollAnswerMeans` | internal/server/device/device.go:82-93 | 401 for a malformed token, else 400 without a name, else 401 when no unused, unexpired token matches, else 409 for a taken name or id, else 201 |
| `Server.Server.HandleEnrollDevice` | internal/server/device/device.go:70-136 | The handler alone is commit, add user, provision and, when that fails, the rollback, as the tunnel machine has them; every answer is fixed by key, token, name and provisioning |
| `Server.Server.HandleKick` | internal/server/admin/admin.go:399-410 | The user is taken away and added back with the secret of the row |
| `Server.Server.HandleRevoke` | internal/server/admin/admin.go:412-438 | Lock, delete and remove come to: the row and its cascade are gone and so is the user |
| `Server.Server.ReloadChiselUsers` | internal/server/lifecycle.go:15-27 | After a restart the tunnel's users are exactly the rows of the device table with their secrets |
| `Server.Server.ReapSSHAccounts` | internal/server/lifecycle.go:66-94 | A pass deletes exactly the devices locked before the cutoff whose account could be removed and leaves the other rows as they are; with no locked row it changes nothing |
| `TunnelUsers.UsersMatchDevices` | internal/server/device/device.go:95-113 | Whenever no handler is at work the tunnel's users are exactly the device rows with their secrets, and no row rests locked, so the SSH reaper finds nothing |
| `TunnelUsers.RunKeepsInv` | internal/server/admin/admin.go:399-426 | Every intermediate step of enroll, rollback, kick, revoke and restart keeps each device's row and user in step |
| `TunnelUsers.CrashWhileRevoking` | internal/server/lifecycle.go:88 | A crash between locking and deleting leaves a row that a later reaper pass deletes under a live tunnel user |
| `TunnelUsers.OverlappingHandlers` | internal/server/admin/admin.go:388-438 | However many enrolls, kicks and revokes of one device overlap, once all are through: a row that is still there has its user; when the row is gone, a user is left if and only if its last change was an addition by a kick, or by an enroll that was not rolled back |
| `TunnelUsers.RowGoes` | internal/server/admin/admin.go:423-429 | A revoke that has found the row, and an enroll that cannot provision, delete it unless another handler did before |
| `TunnelUsers.RemovalsLeaveNothing` | internal/server/device/device.go:103-109 | Revokes and enrolls that are rolled back, however many overlap, leave neither row nor user |
| `TunnelUsers.KickAgainstRevoke` | internal/server/admin/admin.go:388-429 | With a kick and a revoke that both found the row, the row goes, and a user is left if and only if its last change was a kick's addition |
| `TunnelUsers.EnrollAgainstRevoke` | internal/server/device/device.go:95-109 | With a revoke of a device whose enroll has just committed, the row goes, and a user is left if and only if its last change was the enroll's addition and the enroll was not rolled back |
| `TunnelUsers.KickAgainstRollback` | internal/server/admin/admin.go:399-405 | With a kick and an enroll that is rolled back, the row goes, and a user is left if and only if its last change was a kick's addition |
| `TunnelUsers.KickCanFinishLast` | internal/server/admin/admin.go:388-405 | An interleaving with the kick last exists, although the comment in the code says there is no window |
| `TunnelUsers.EnrollCanFinishLast` | internal/server/device/device.go:85-95 | The whole revoke can run between the commit of an enroll and AddDevice |
| `TunnelUsers.KickCanOutliveRollback` | internal/server/device/device.go:105-109 | The kick can add the user between the two halves of a rollback, so that the delete comes last and the user still stays |
| `LocalAddr.NormalizeGivesNormal` | internal/server/api/api.go:143-173 | Every accepted address is host:port or [host]:port with a port in range |
| `LocalAddr.NormalizeAccepts` | internal/server/api/api.go:143-173 | An input is accepted if and only if, trimmed, it is a number, host:port or [host]:port with a port from 1 to 65535; the host may be missing |
| `LocalAddr.NormalizeKeeps` | internal/server/api/api.go:143-173 | Splitting the result gives the port the input names and its host, or 127.0.0.1 when it names none |
| `LocalAddr.PortAlone` | internal/server/api/api.go:148-160 | n and :n become 127.0.0.1:n |
| `LocalAddr.TrimSpaceCuts` | internal/server/api/api.go:144 | Trimming cuts off space at both ends and leaves none there |
| `LocalAddr.NormalizeFixpoints` | internal/server/api/api.go:143-173 | Normalising changes nothing if and only if the address is normal and does not begin with a space |
| `LocalAddr.NormalizeTwiceIff` | internal/server/api/api.go:143-173 | Normalising an accepted input a second time changes nothing if and only if the trimmed input does not put a host that begins with a space, and has no colon, into brackets |
| `LocalAddr.NormalizeTwiceCanDiffer` | internal/server/api/api.go:161-172 | An accepted input on which it does: brackets hide a leading space |
| `LocalAddr.SplitUndoesJoin` | internal/server/api/api.go:161-172 | Splitting undoes joining on the hosts and ports that occur |
| `LocalAddr.NormalAddrsFramed` | internal/server/api/api.go:172 | No normal address followed by a newline begins another one |
| `ChiselSpec.EncodeSpecs` | internal/tunnel/client.go:36-48 | Specs are returned if and only if every rule validates; read back from their text they say, in order, that the server listens on 127.0.0.1 (0.0.0.0 if not bound locally) at the public port and the device dials the rule's address, and that the device listens on its loopback and the server dials the remote port |
| `ChiselSpec.RemoteSpecReads` | internal/tunnel/spec.go:75-86 | The spec of a reverse rule reads back as its bind address, public port, host and port dialled, and UDP flag |
| `ChiselSpec.LocalSpecReads` | internal/tunnel/spec.go:42-53 | The spec of a forward rule reads back as listening on 127.0.0.1 at the local port and dialling 127.0.0.1 at the remote port |
| `ChiselSpec.ProtocolsByLetter` | internal/tunnel/spec.go:63-67 | The protocol is known by its three letters in either case |
| `ChiselSpec.SpecsLoseNothing` | internal/tunnel/spec.go:47-86 | Two valid rules print the same spec if and only if they agree in kind, bind address, ports, address and in being UDP |
| `ReloadKey.HashSpecs` | internal/client/daemon.go:234-248 | The two key loops, the sorts and the join compute the canonical text |
| `ReloadKey.TextIsFaithful` | internal/client/daemon.go:234-248 | Over framed addresses the canonical text is equal if and only if the rules are equal as multisets, leaving BindLocal aside |
| `ReloadKey.RawNewlineForges` | internal/client/daemon.go:237 | Without framing it fails: an address with a newline can spell out a second rule |
| `ReloadKey.BindLocalGoesUnseen` | internal/client/daemon.go:237 | Flipping BindLocal in any one rule keeps the text although the spec differs |
| `Rebinding.RebindGoesUnseen` | internal/client/daemon.go:234-248 | From any reachable state in which a service's port is next in line, deleting the service and adding it with the other binding gives the same reload text although the device should run another spec |
| `Rebinding.DaemonKeepsOldBinding` | internal/client/daemon.go:196-206 | A daemon that polls then goes on with the old rules |
| `Rebinding.RebindingHappens` | internal/server/api/api.go:286-304 | Such a state is reached from an empty store with any pool and any address that normalises |
| `Daemon.RunOnce` | internal/client/daemon.go:104-165 | A refused fetch ends it as unauthorized, a canceled one as canceled, any other failed one and a tunnel that cannot be built as failed; otherwise the first event that the select can receive decides: the tunnel's end, the stop of the first poll that was refused or brought another text, or the context |
| `Daemon.SessionEnd` | internal/client/daemon.go:136-165 | The step-by-step session ends as the first receivable event of its history says, and not before |
| `Daemon.WatchReload` | internal/client/daemon.go:172-209 | One turn goes on unless the poll was refused or brought another text |
| `Daemon.Run` | internal/client/daemon.go:55-91 | The loop leaves only on cancellation, context end or 401, and waits after the k-th failure in a row, not at all after a reload or a clean end |
| `Daemon.Waits` | internal/client/daemon.go:56-87 | The waits are 1, 2, 4, 8, 16, 32 and then always 60 seconds |
| `Daemon.FetchDecides` | internal/client/daemon.go:64-87 | A refused fetch ends the daemon; a server that cannot be reached never does: it waits and turns again unless its context ends meanwhile |
| `Daemon.WhenItLeaves` | internal/client/daemon.go:64-91 | It leaves as canceled if and only if the fetch was canceled or the cancellation of tunnel or context was received first; as unauthorized if and only if the fetch was refused or the stop received first goes back to a refused poll |
| `Daemon.WatchIsFaithful` | internal/client/daemon.go:196-208 | While the watch goes on after a successful poll the tunnel runs exactly the polled rules up to order and BindLocal; it asks for a reload if and only if they differ. The bootstraps are any the server can send |
| `Daemon.WhyItStopped` | internal/client/daemon.go:182-206 | A stop reason goes back to a poll that was refused, or to one that brought other rules, whatever bootstraps the server sent |
| `Daemon.SendableIsBuildable` | internal/tunnel/client.go:36-48 | Whatever the server can send, its two queries answered in different states included, passes validation in NewClient |
| `Daemon.GivesUpOnlyWhenRefused` | internal/client/daemon.go:68-70 | With an identity, and whatever bootstraps the server sends, the daemon leaves as unauthorized only if the server refused a fetch or a poll |
| `LoginLimiter.LoginRateLimiter.GcLocked` | internal/server/api/api.go:340-353 | Compacting the slice in place keeps exactly the times after the cutoff, in order, and drops an empty entry |
| `LoginLimiter.LoginRateLimiter.Allow` | internal/server/api/api.go:326-332 | Allows if and only if fewer than maxFail recorded times lie after now minus window |
| `LoginLimiter.LoginRateLimiter.RecordFailure` | internal/server/api/api.go:334-338 | Appends the time to this address's entry |
| `LoginLimiter.HandleLogin` | internal/server/auth/auth.go:42-113 | The handler is Allow, then one RecordFailure exactly for an unknown user or a wrong password; every status is fixed |
| `LoginLimiter.FailuresPerWindow` | internal/server/auth/auth.go:45-81 | With a clock that does not go back and at most C logins of an address in flight, every span [t, t + window) holds at most maxFail - 1 + C failures of it |
| `LoginLimiter.FailuresPerMinute` | internal/server/api/api.go:317-324 | With the server's limits no minute holds more than 4 + C failures |
| `LoginLimiter.BoundIsReached` | internal/server/auth/auth.go:45-81 | For every limit and every C some run reaches that bound |
| `LoginLimiter.AllowSeesWholePast` | internal/server/api/api.go:326-353 | With a clock that does not go back, Allow decides as if no failure had ever been dropped |
| `Timestamps.TextOrderIsTimeOrder` | internal/store/session.go:36-42 | SQL's text order on two stored times is their time order if and only if they do not share a second with one printed fraction beginning the other |
| `Timestamps.CutoffWithinOneSecond` | internal/store/device.go:106-119 | A cutoff compared as text is right for every time at least a second away from it |
| `Timestamps.WholeSecondSortsLast` | internal/store/session.go:36-42 | A time on a whole second sorts after every later time within that second |
| `Timestamps.StampReads` | internal/store/session.go:36-42 | A stored time reads back field by field: dashes in the date, T, colons, an optional fraction, Z |
| `Timestamps.FractionReads` | internal/store/session.go:36-42 | The fraction printed is the nanoseconds without trailing zeros, and none at all on a whole second |
| `Sessions.ExpiryWithinOneSecond` | internal/store/session.go:36-42 | A session is accepted less than a second too long and refused less than a second too soon |
| `Sessions.SweepIsInvisible` | internal/store/session.go:73-82 | The sweep takes away a session a later request would still have got only if sweep, request and expiry fall into one second |
| `Sessions.SessionStore.CreateSession` | internal/store/session.go:20-32 | Inserts or reports the violated constraint |
| `Sessions.SessionStore.GetActiveSessionByHash` | internal/store/session.go:36-42 | Finds the session with this hash if and only if it is live |
| `Sessions.SessionStore.TouchSession` | internal/store/session.go:44-49 | Changes only the last use of this session |
| `Sessions.SessionStore.DeleteSessionByHash` | internal/store/session.go:51-61 | After it no lookup of this hash finds a session at any time, and every other hash is answered as before; it reports whether there was one |
| `Sessions.SessionStore.DeleteExpiredSessions` | internal/store/session.go:73-82 | Removes exactly the sessions that are not live now and counts them |
| `Base64.DecodeEncode` | internal/auth/password.go:38-41 | Decoding undoes encoding for every byte string |
| `Base64.DecodeExactly` | internal/auth/password.go:84-92 | Which texts decode, and which of those the encoder prints: those without line breaks and without stray bits |
| `Base64.BreaksDoNotCount` | internal/auth/password.go:84-92 | A line break anywhere in a text makes no difference to what it decodes to |
| `Base64.SymbolsByTable` | internal/auth/password.go:38-41 | The symbols are those of table 1 of RFC 4648 |
| `Base64.PackedBits` | internal/auth/password.go:38-41 | Up to three bytes and their symbols are the same number, first byte first, with zero bits added at the end |
| `Phc.ParsePrint` | internal/auth/password.go:57-94 | Numbers are read back modulo the width of their field, salt and key exactly; the round trip is exact if and only if m and t fit 32 bits and p fits 8 |
| `Phc.VerifyHashed` | internal/auth/password.go:45-55 | A stored password verifies exactly the passwords that derive the same key from its salt, at any cost |
| `Phc.StoredPassword` | internal/auth/password.go:30-42 | HashPassword prints $argon2id$v=19$m=65536,t=3,p=4$ with salt and key, the key derived at that cost with 32 bytes |
| `Phc.StoredPasswordVerifies` | internal/auth/password.go:45-55 | VerifyPassword accepts exactly the passwords that derive the same key at that cost |
| `Phc.ParsedText` | internal/auth/password.go:57-94 | Any accepted text is the fixed head, three parameters, and the salt and key that decode to the result |
| `Phc.ScanLoosely` | internal/auth/password.go:69-80 | A parameter is read with a space and a sign before its digits and whatever follows them |
| `RingBuffers.RingBuffer.Add` | internal/logging/buffer.go:46-54 | The history grows by this entry |
| `RingBuffers.RingBuffer.Snapshot` | internal/logging/buffer.go:58-81 | Returns the end of the whole history in order: as many entries as the limit asks for, or all that is held if it is not positive or asks for more |
| `Migrations.LoadMigrations` | internal/store/migrations.go:24-56 | What is returned runs 1, 2, ..., n and has every script of the directory once, with the number and name of its file and the file's text; an error means there is no such list |
| `Migrations.LoadIff` | internal/store/migrations.go:24-56 | A list is loaded if and only if its versions run 1, 2, ..., n and it has every script of the directory once, none altered and none made up |
| `Migrations.AcceptedIff` | internal/store/migrations.go:49-54 | However the scripts are listed, they are accepted if and only if their versions are a permutation of 1..n; the result is then the same scripts in version order |
| `Migrations.NameParses` | internal/store/migrations.go:34-42 | A name of the form digits_name.sql gives its number and its name |
| `Migrations.Database.Migrate` | internal/store/migrations.go:58-100 | Applies script and row together or not at all, script by script |
| `Migrations.RunResumes` | internal/store/migrations.go:77-98 | Wherever each of any number of starts fails, the rows are exactly 1..k and the schema has gone through the first k scripts once each in order |
| `Migrations.SuccessIsComplete` | internal/store/migrations.go:77-100 | When scripts were only appended, a successful start has applied all of them, and starting again changes nothing |
| `OfflineAlerts.MaybePushBarkAlerts` | internal/server/bark.go:23-72 | A round alone is begin, one visit with its push per device, end; afterwards exactly the offline devices are alerted that were so before or could be pushed; switched off it changes nothing |
| `OfflineAlerts.VisitDevice` | internal/server/bark.go:36-69 | One device's turn clears the alert of one that is online, keeps that of one that is offline, and sets it after a push that got through |
| `OfflineAlerts.RoundMeans` | internal/server/bark.go:23-41 | A round begins if and only if alerts are on and have a URL; it takes a device for offline if and only if it was never seen or not within the configured seconds |
| `OfflineAlerts.ThresholdIsRightIff` | internal/server/bark.go:32 | The comparison with the threshold is right for every elapsed time if and only if the seconds lie between -9223372036 and 9223372036 |
| `OfflineAlerts.OnePushPerOutage` | internal/server/bark.go:41-49 | Between two delivered pushes for one row some round saw the device online and cleared its alert, with pushes in flight and other handlers in between |
| `OfflineAlerts.FailedPushIsRetried` | internal/server/bark.go:61-64 | After a failed push the next look that finds the device offline pushes again |
| `OfflineAlerts.PollingDeviceIsLeftAlone` | internal/server/lifecycle.go:40-49 | A device whose poll is recent is neither swept offline nor found offline by an alert round |
| `UrlEscape.UrlPathEscape` | internal/server/api/api.go:397-413 | The loop computes the percent encoding |
| `UrlEscape.UnescapeEscape` | internal/server/api/api.go:397-413 | Percent decoding gives every byte string back |
| `UrlEscape.EscapeIsSegment` | internal/server/api/api.go:397-413 | The output is path characters and %HH escapes only, and what may stand for itself does |
| `UrlEscape.SafeInPaths` | internal/server/api/api.go:401-405 | The characters left alone are those section 3.3 of RFC 3986 allows in a path segment |
| `UrlEscape.EndpointKeepsParts` | internal/server/api/api.go:366-375 | The last two path segments of a push URL give title and body back |

## Left out

- TunnelUsers.UsersMatchDevices: handlers for one device take turns and no restart falls between locking and deleting a row, because the property is false otherwise; TunnelUsers.OverlappingHandlers has the exact condition, TunnelUsers.CrashWhileRevoking the run.
- Migrations.SuccessIsComplete: asks that earlier starts carried initial parts of the same script list, which is what appending scripts means.
- ReloadKey.TextIsFaithful: asks that no address followed by a newline begins another one, which covers every address without a newline and every normalised one.
- LoginLimiter.FailuresPerWindow: asks for a clock that does not go back and for the bound on logins in flight that it speaks about.
- Server.Server.HandleEnrollDevice: the audit entry is not modelled; whether the public key is well formed is an input.
- Server.Server.HandleBootstrap: the method runs alone; other handlers between its two queries are in the state machine, and Guarantees.BootstrapsRun covers them.
- Store.Store.LoadCounts: the total of admin tokens is not modelled, because their table is not.
- Server.Server.HandleRevoke: locking the SSH account is not modelled; its failure does not change the tables or the tunnel.
- Phc.VerifyHashed: argon2 refuses zero rounds or zero threads by a panic; here it is a total function.
- OfflineAlerts.MaybePushBarkAlerts: the pushes of a round come back at once; the state machine has them in flight.
- HTTP, JSON, CORS, cookies, YAML, logging and the command line: handlers start from the decoded request.
- Device and admin authentication, admin tokens, admin users and the audit log: one-statement operations.
- The base32 format check of enrollment tokens is an input of the check step.
- Admin item handlers for services and forwards: the device handlers without the owner check.
- SetServiceBindLocal: no code calls it.
- The chisel address and fingerprint of a bootstrap: copied from the configuration, and not part of the reload key.
- chisel itself, TCP probing, SSH account shell calls and process killing.
- The `omlserver device revoke` command: it edits the database from another process and leaves the tunnel alone.
- SQLite itself: only constraints, cascades and atomic statements and transactions are kept.
- FormatRelativeTime, the desktop client, the web pages and process management.
