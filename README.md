# k8s-sidecar core, modelled in Dafny

k8s-sidecar runs beside a server in a Kubernetes pod. It watches every
config map that carries a configured label (LABEL). It writes each data entry
of such a map as a file into a target folder (FOLDER), or into the folder
named by a per-map annotation. When a map is deleted, it removes the files.
After every file it writes or removes, it can send an HTTP notification
(REQ_URL, REQ_METHOD, REQ_PAYLOAD). A data key ending in `.url` names a
remote file: the sidecar fetches that URL and writes the body under the key
without its suffix. With METHOD=LIST it makes one pass over the current
config maps and stops. Otherwise it watches forever, restarting the watch
after a recoverable error.

The model covers the core of `sidecar/sidecar.py`: the file store, the
per-event reconciler, the namespace mode and selector parse, the error
policy of the supervisor loop, and the startup configuration. What it
leaves out is listed under "## Left out".

- `filestore.dfy` (module `FileStore`): the file store, as a `Store` class
  with a `files` map and a `dirs` set. Its methods `WriteTextToFile` and
  `RemoveFile` are proved against the value functions `Write` and `Remove`
  on `FsState`.
- `notifier.dfy` (module `Notifier`): the method dispatch of `request`. A
  missing url, or a method other than GET/None/POST, leaves `res` unbound,
  so the `return res` raises.
- `reconciler.dfy` (module `Reconciler`): the body of the event loop in
  `watchForChanges` and of the list loop in `listConfigmaps`.
  - `Reconcile` and `ListPass` are the specification functions.
  - `ReconcileInto` and `ListPassInto` are the loops that update a `Store`.
  - The outside world is a parameter `Env`: the body a `.url` fetch
    returns, or none when the request raises, and whether `os.makedirs`
    succeeds.
  - An error raised inside the loop stops it, and it is reported as a
    `Fault`.
- `reconciler_props.dfy` (module `ReconcilerProps`) and `list_props.dfy`
  (module `ListProps`): what an event and a list pass do.
  - The last write to a path wins.
  - A write frames every path its keys do not name.
  - Writes and list passes are idempotent.
  - Deletes remove exactly the key paths and ignore the fetch oracle.
  - The effect log pairs each action with its notification.
- `namespaces.dfy` (module `Namespaces`): the addressing mode chosen from
  NAMESPACE and NAMESPACE_LABELS. Also the selector parse
  `dict(m.split("=") for m in selector.split(","))`, with Python's
  `str.split` and its `join` round trip.
- `supervisor.dfy` (module `Supervisor`): one turn of the `while True` loop
  around `watchForChanges` in `main`.
- `startup.dfy` (module `Startup`): the environment reading at the start of
  `main`.

Points of the code's behaviour that the model keeps as written:

- Namespace precedence (`sidecar/sidecar.py:64-76` and `110-139`): both
  variables unset gives the sidecar's own namespace; then
  `NAMESPACE == "ALL"`; then a non-empty NAMESPACE_LABELS, which overrides
  an explicit namespace; then NAMESPACE. That last case can be `None` when
  NAMESPACE_LABELS is set but empty.
- Event kinds: every kind other than ADDED and MODIFIED takes the remove
  branch, ERROR and BOOKMARK included.
- A failed `os.makedirs` is fatal even for "already exists". The handler at
  `sidecar/sidecar.py:18` reads `errno`, which is never imported, so the
  handler itself raises NameError.

## Model

| member | source | states |
|---|---|---|
| Common.Get | sidecar/sidecar.py:177 | `os.getenv`: `Some` exactly when the variable is set, holding its value |
| FileStore.Path | sidecar/sidecar.py:21 | the complete path; its property is stated by `FileStore.PathInjective` |
| FileStore.PathInjective | sidecar/sidecar.py:21 | within one folder, `folder + "/" + filename` names distinct files for distinct names |
| FileStore.Write | sidecar/sidecar.py:13-23 | fails exactly when the folder is missing and cannot be created; on success the folder exists, the file holds the data, and every other file is unchanged |
| FileStore.Remove | sidecar/sidecar.py:52-57 | the file is gone, folders and every other file are unchanged, and removing an absent file changes nothing |
| FileStore.WriteIdempotent | sidecar/sidecar.py:13-23 | writing the same data again succeeds and leaves the store as the first write left it |
| FileStore.RemoveIdempotent | sidecar/sidecar.py:52-57 | removing twice is removing once |
| FileStore.RemoveAfterWrite | sidecar/sidecar.py:13-57 | removing a file written to a fresh path restores the old files |
| FileStore.Store.constructor | sidecar/sidecar.py:13-23 | the store starts in the given state |
| FileStore.Store.WriteTextToFile | sidecar/sidecar.py:13-23 | reports success exactly when `Write` succeeds; the store becomes `Write`'s state, or stays unchanged on failure |
| FileStore.Store.RemoveFile | sidecar/sidecar.py:52-57 | reports whether the file existed (the `isfile` test) and the store becomes `Remove`'s state |
| Notifier.Dispatch | sidecar/sidecar.py:26-50 | no url gives no request; GET or no method gives a GET of the url; POST gives a POST with the payload as JSON; any other method gives no request; an error only in those two cases |
| Reconciler.Filename | sidecar/sidecar.py:96-97 | a `.url` key loses exactly its suffix; any other key is the file name itself |
| Reconciler.Content | sidecar/sidecar.py:95-98 | a plain value is the content; a `.url` key's content is what the fetch of its value returns |
| Reconciler.DestFolder | sidecar/sidecar.py:85-87 | the folder annotation's value when the map carries it, otherwise the target folder |
| Reconciler.Notify | sidecar/sidecar.py:165-166 | the notification never changes the store |
| Reconciler.KeyStep | sidecar/sidecar.py:157-172 | one iteration of the key loop; its log entries are stated by `ReconcilerProps.KeyStepTrace` |
| Reconciler.RunKeys | sidecar/sidecar.py:157-172 | the key loop, stopping at the first error; stated by `ReconcilerProps.WriteShape`, `WriteLastWins`, `WriteFrame`, `WriteIdempotent`, `WriteFaultIff`, `DeleteShape`, `TraceWithUrl` and `TraceWithoutUrl` |
| Reconciler.ListPass | sidecar/sidecar.py:77-101 | the list loop, stopping at the first error; stated by `ListProps.ListShape`, `ListPassAt`, `ListPassUntouched`, `ListPassIdempotent` and `ListPassCovers` |
| Reconciler.Reconcile | sidecar/sidecar.py:140-155 | a map without labels, without the target label or without data changes nothing and logs nothing |
| Reconciler.RunKeysFaultSticks | sidecar/sidecar.py:157-172 | once a key raises, the later keys are not processed |
| Reconciler.ListPassFaultSticks | sidecar/sidecar.py:77-101 | once a config map raises, the later maps are not processed |
| Reconciler.ReconcileInto | sidecar/sidecar.py:140-172 | the loop over one event's data keys leaves the store, the log and the error exactly as `Reconcile` says |
| Reconciler.ListPassInto | sidecar/sidecar.py:77-101 | the loop over the listed config maps leaves the store, the log and the error exactly as `ListPass` says |
| ReconcilerProps.KeyPaths | sidecar/sidecar.py:157-170 | every data key's file path is among the event's paths |
| ReconcilerProps.KeyPathsFromKeys | sidecar/sidecar.py:157-170 | every one of the event's paths comes from some data key |
| ReconcilerProps.LastIndexOf | sidecar/sidecar.py:157-164 | the last key naming a file name: it names the file, and no later key does |
| ReconcilerProps.OverlayAt | sidecar/sidecar.py:157-164 | the files a write event lays down hold, at each name, the content of the last key with that name, and nothing at names no key has |
| ReconcilerProps.OverlayKeys | sidecar/sidecar.py:157-164 | the paths a write event lays down are exactly its key paths |
| ReconcilerProps.WriteShape | sidecar/sidecar.py:157-166 | a write event that raises nothing resolved every key, could notify, created the folder if it had a key, and laid its files over the old ones |
| ReconcilerProps.WriteNoFault | sidecar/sidecar.py:157-166 | a write event cannot raise when every key resolves, notifications cannot fail, and the folder exists or makedirs can create it |
| ReconcilerProps.WriteMkdirFails | sidecar/sidecar.py:13-19 | a missing folder that makedirs cannot create stops a write event at its first key with the makedirs error |
| ReconcilerProps.WriteFaultIff | sidecar/sidecar.py:157-166 | with resolvable keys and notifications that cannot fail, a write event raises exactly when its folder is missing and makedirs fails |
| ReconcilerProps.WriteLastWins | sidecar/sidecar.py:157-164 | after a write event, the file named `f` holds the content of the last key naming `f`; a name no key has is as it was |
| ReconcilerProps.WriteFrame | sidecar/sidecar.py:157-164 | a write event touches no path its keys do not name, adds exactly its key paths, and creates at most its one folder |
| ReconcilerProps.WriteIdempotent | sidecar/sidecar.py:157-166 | applying a write event that succeeded a second time succeeds and changes nothing |
| ReconcilerProps.DeleteShape | sidecar/sidecar.py:167-172 | a non-write event removes exactly its key paths, never touches folders, and can only fail while notifying |
| ReconcilerProps.DeleteIgnoresEnv | sidecar/sidecar.py:167-172 | a non-write event fetches nothing and creates nothing: its outcome does not depend on the outside world |
| ReconcilerProps.KeyStepTrace | sidecar/sidecar.py:157-172 | one key appends its write (with the key's resolved content) or remove at the key's path and, when a url is set, the request `request` dispatches |
| ReconcilerProps.TraceWithoutUrl | sidecar/sidecar.py:157-170 | without a url, the log is one action per key, in key order, each write carrying the key's resolved content |
| ReconcilerProps.TraceWithUrl | sidecar/sidecar.py:157-172 | with a url, the log alternates one action per key, in key order, each followed by the dispatched notification request |
| ReconcilerProps.ReconcileEffects | sidecar/sidecar.py:140-172 | for a selected map, the log holds one action per key at the map's destination folder, each followed by the dispatched notification exactly when a url is set |
| ReconcilerProps.ReconcileWrite | sidecar/sidecar.py:140-166 | ADDED/MODIFIED: at the destination folder, the last key naming a file wins; re-applying the event changes nothing and raises nothing |
| ReconcilerProps.ReconcileDelete | sidecar/sidecar.py:140-172 | other kinds: the outcome is independent of the outside world and folders are kept; when notifications cannot fail, exactly the key paths are gone |
| ReconcilerProps.DashboardExample | sidecar/sidecar.py:140-164 | a labelled map with data `a.json: {}` and target folder `/out` yields `/out/a.json` holding `{}` |
| ListProps.ItemShape | sidecar/sidecar.py:77-99 | a listed map reconciled without error had its keys resolved and laid its files over the old ones |
| ListProps.ListOkSnoc | sidecar/sidecar.py:77-101 | the per-map condition for an error-free pass extends map by map |
| ListProps.PrefixNoFault | sidecar/sidecar.py:77-101 | a pass that raises nothing raised nothing on any earlier map, and each map is reconciled on the state the earlier ones left |
| ListProps.ListPassOk | sidecar/sidecar.py:77-101 | a pass that raises nothing resolved every selected map's keys |
| ListProps.ListShape | sidecar/sidecar.py:77-101 | a pass that raises nothing laid the maps' files over the old ones in list order, later maps winning, and created their folders |
| ListProps.ListNoFault | sidecar/sidecar.py:77-101 | a pass cannot raise when every key resolves, notifications cannot fail, and every folder exists or makedirs can create it |
| ListProps.ListPassIdempotent | sidecar/sidecar.py:77-101 | a second list pass over the same maps raises nothing and changes nothing: the one-shot mode is repeatable |
| ListProps.ListOverlayCovers | sidecar/sidecar.py:77-101 | every file of one listed map is among the pass's files |
| ListProps.ListPassCovers | sidecar/sidecar.py:77-101 | after a pass that raises nothing, every key of every selected map has its file at that map's destination folder |
| ListProps.ListOverlayAt | sidecar/sidecar.py:77-101 | a listed map's file survives in the pass's files when no later map lays a file at that path |
| ListProps.ItemOverlayKeys | sidecar/sidecar.py:79-99 | a listed map lays files only at its own key paths, and an unselected map lays none |
| ListProps.ListPassAt | sidecar/sidecar.py:77-101 | after a pass that raises nothing, the file named `f` at a selected map's destination holds the content of that map's last key naming `f`, unless a later selected map writes the same path |
| ListProps.ListOverlayMisses | sidecar/sidecar.py:77-101 | a path no selected map's keys name is not among the pass's files |
| ListProps.ListPassUntouched | sidecar/sidecar.py:77-101 | after a pass that raises nothing, a path no selected map's keys name is as it was |
| ListProps.ListPassSkipsUnselected | sidecar/sidecar.py:79-92 | a listed map without labels, without the target label or without data contributes nothing |
| Namespaces.Split | sidecar/sidecar.py:71 | `str.split(sep)`: one more piece than separators, no piece holds the separator, and joining the pieces gives back the string |
| Namespaces.SplitAfterPlain | sidecar/sidecar.py:71 | a leading run without separators ends up at the front of the first piece |
| Namespaces.SplitJoin | sidecar/sidecar.py:71 | splitting the join of separator-free pieces gives back the pieces |
| Namespaces.ParseItems | sidecar/sidecar.py:71 | `dict(...)` over the items: an error names one of the items, one that does not split into two parts; stated further by `Namespaces.ParseItemsError` and `Namespaces.ParseItemsValue` |
| Namespaces.ParseSelector | sidecar/sidecar.py:115 | the selector parse: an error names a comma-free item that does not split into two parts; its round trip is `Namespaces.ParseRender` |
| Namespaces.FirstBad | sidecar/sidecar.py:71 | the first selector item that is not `key=value`; every earlier item is |
| Namespaces.ParseItemsError | sidecar/sidecar.py:71 | the parse raises exactly when some item is not `key=value`, and the error names the first such item |
| Namespaces.LastItemWithKey | sidecar/sidecar.py:71 | the last item with a given key: it has the key, and no later item does |
| Namespaces.ParseItemsValue | sidecar/sidecar.py:71 | a parsed selector holds exactly the keys of its items, each with the value of its last item |
| Namespaces.ParseRender | sidecar/sidecar.py:71 | rendering `key=value` pairs without `,` or `=` and parsing them gives back their dictionary |
| Namespaces.ParseRenderItems | sidecar/sidecar.py:71 | parsing rendered items gives the pairs' dictionary |
| Namespaces.SelectMode | sidecar/sidecar.py:64-76 | both unset gives the own namespace; ALL gives all namespaces; otherwise a non-empty selector gives fan-out; otherwise NAMESPACE, each case exactly when its condition holds |
| Namespaces.SelectorBeatsNamespace | sidecar/sidecar.py:110-115 | a non-empty selector overrides an explicit namespace other than ALL |
| Namespaces.WatchSource | sidecar/sidecar.py:110-139 | the watch as written: the own or the single namespace, or the cluster-wide stream for ALL; fan-out always raises, ValueError (with the parse error) for a bad selector and UnboundLocalError otherwise |
| Namespaces.ListSource | sidecar/sidecar.py:64-77 | the listing as written agrees with the watch outside fan-out; fan-out always raises, the UnboundLocalError coming from `ret` |
| Namespaces.IntendedSource | sidecar/sidecar.py:110-137 | the evidently intended fan-out: follow the namespaces the parsed selector selects, failing only for a bad selector |
| Namespaces.FanOutNeverStarts | sidecar/sidecar.py:64-116 | as written, a non-empty selector with NAMESPACE other than ALL makes both the watch and the list fail |
| Namespaces.FanOutExample | sidecar/sidecar.py:114-116 | NAMESPACE_LABELS=`team=a` selects fan-out and the watch fails, while the intended source follows the namespaces labelled `team=a` |
| Supervisor.Step | sidecar/sidecar.py:208-219 | the evidently intended policy: fatal exactly for an ApiException with status 500 or an error that is neither an ApiException nor a ProtocolError; a ProtocolError or a normal return restarts |
| Supervisor.StepAsWritten | sidecar/sidecar.py:208-219 | the policy as written: an ApiException is fatal only when its status is the very object of the literal 500 |
| Supervisor.IdentityRestartsOn500 | sidecar/sidecar.py:212 | a status-500 ApiException restarts as written and is fatal as intended |
| Supervisor.AsWrittenAgreesElsewhere | sidecar/sidecar.py:208-219 | the two policies agree on every other outcome |
| Supervisor.FaultFailure | sidecar/sidecar.py:13-50 | an error escaping the reconciler is neither an ApiException nor a ProtocolError |
| Supervisor.StartFailure | sidecar/sidecar.py:114-116 | an error opening a fan-out stream is neither an ApiException nor a ProtocolError |
| Supervisor.ReconcileFaultIsFatal | sidecar/sidecar.py:208-219 | every error raised while reconciling ends the process, under both policies |
| Startup.Configure | sidecar/sidecar.py:177-206 | a missing LABEL, then a missing FOLDER, makes `main` return -1; otherwise the loops get LABEL, FOLDER, the folder annotation (defaulting to `k8s-sidecar-target-directory`), REQ_URL, REQ_METHOD and REQ_PAYLOAD, and METHOD=LIST gives the one-shot pass, anything else the watch |
| Startup.LabelCheckedFirst | sidecar/sidecar.py:181-188 | a missing LABEL is reported whatever FOLDER holds |

## Left out

- Kubernetes client calls (`load_incluster_config`, `list_namespace`, `list_namespaced_config_map`, `watch.Watch().stream`): the model takes the listed maps or the delivered event as input. Errors these calls raise are `Supervisor.Failure` values.
- Fan-out worker threads and the shared queue. As written, fan-out mode never reaches them (see Findings), so a worker's behaviour is not modelled.
- The namespace listing inside the fan-out branch of `listConfigmaps` (lines 73-74) is I/O. The model assumes it returns, after which `ret` is unbound.
- HTTP sessions, retry counts, backoff and timeouts in `request` (lines 27-40). A fetch is the `Env.fetch` oracle, whose `None` means the request raised. A notification's network result is not modelled: only its method dispatch, and the error of the unbound `res`.
- Failures of `open` and `write` in `writeTextToFile` and of `os.remove` in `removeFile` (line 55), including the empty file name from the key `.url`. The model does not distinguish files from folders, and does not model intermediate folders created by `makedirs`. Because `os.remove` cannot fail in the model, a delete event can only fail while notifying (`ReconcilerProps.DeleteShape`).
- Logging with `print`, including the log line for an absent file. The log line is the `NotFound` effect.
- Reading the service-account namespace file (line 196): its content is the `current` parameter. SKIP_TLS_VERIFY (lines 198-202) only configures TLS.
- Supervisor.Step: models a single turn of the `while True` loop, not the unbounded repetition.
- Startup.Configure: `Exit(-1, …)` is `main`'s return value. It is not the process exit status, because the module-level call ignores it.

## Findings

| source | as written | input that shows it | evidently intended | confidence | as-written member | corrected member |
|---|---|---|---|---|---|---|
| sidecar/sidecar.py:212 | `e.status is not 500` compares object identity, so a status parsed from a response (not CPython's shared small-int object) always passes | an ApiException with status 500 | compare by value: re-raise on status 500 | not executed | Supervisor.StepAsWritten (Supervisor.IdentityRestartsOn500) | Supervisor.Step |
| sidecar/sidecar.py:116 | `queue = queue.Queue()` makes `queue` local to `watchForChanges`, so reading `queue.Queue` raises UnboundLocalError | NAMESPACE unset, NAMESPACE_LABELS=`team=a` | watch the namespaces labelled `team=a` | not executed | Namespaces.WatchSource (Namespaces.FanOutNeverStarts, Namespaces.FanOutExample) | Namespaces.IntendedSource |
| sidecar/sidecar.py:72-77 | the fan-out branch of `listConfigmaps` fills `items` but the loop reads `ret.items`, and `ret` is never bound there | METHOD=LIST, NAMESPACE unset, NAMESPACE_LABELS=`team=a` | list the config maps of the namespaces labelled `team=a` | not executed | Namespaces.ListSource (Namespaces.FanOutNeverStarts) | Namespaces.IntendedSource |
