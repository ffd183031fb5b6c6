/** The per-event reconciler: the loop body of `watchForChanges` for one
    watch event, and of `listConfigmaps` for one listed config map, which
    it handles exactly as an ADDED event. */
module Reconciler {
  import opened Common
  import opened FileStore
  import opened Notifier

  /** A config map snapshot. The data map is a sequence of (key, value)
      pairs in the dictionary's iteration order. */
  datatype Resource = Resource(
    namespace: string,
    name: string,
    labels: Option<map<string, string>>,
    annotations: Option<map<string, string>>,
    data: Option<seq<(string, string)>>)

  /** A watch event: `event['type']` and `event['object']`. */
  datatype Event = Event(kind: string, obj: Resource)

  /** The arguments `main` passes to both loops. */
  datatype Settings = Settings(
    targetLabel: string,
    targetFolder: string,
    folderAnnotation: string,
    url: Option<string>,
    verb: Option<string>,
    payload: Option<string>)

  /** What the outside world answers: the body of a GET of a `.url` value
      (None when the request raises), and whether `os.makedirs` of a folder
      succeeds. */
  datatype Env = Env(fetch: string -> Option<string>, mkdirOk: string -> bool)

  /** Observable effects, in order: a file written, a file removed, a remove
      of an absent file (the "file not found" log line), a notification. */
  datatype Effect =
    | Wrote(path: string, content: string)
    | Removed(path: string)
    | NotFound(path: string)
    | Notified(request: HttpRequest)

  /** Errors that escape the loop body and abort the rest of it. */
  datatype Fault =
    | FetchFailed(url: string)
    | MkdirFailed(folder: string)
    | NotifyFailed(reason: NoResponse)

  /** The store reached, the effects so far, and the error that stopped the
      loop, if any. */
  datatype Outcome = Outcome(state: FsState, trace: seq<Effect>, fault: Option<Fault>)

  const UrlSuffix: string := ".url"

  predicate HasUrlSuffix(key: string) {
    |key| >= |UrlSuffix| && key[|key| - |UrlSuffix|..] == UrlSuffix
  }

  /** The file name a data key stands for: the key without `.url`, or the key. */
  function Filename(key: string): (r: string)
    ensures HasUrlSuffix(key) ==> r + UrlSuffix == key
    ensures !HasUrlSuffix(key) ==> r == key
  {
    if HasUrlSuffix(key) then key[..|key| - |UrlSuffix|] else key
  }

  /** The content written for a data entry: the value itself, or the body
      fetched from the value as a URL. */
  function Content(key: string, value: string, env: Env): (r: Option<string>)
    ensures !HasUrlSuffix(key) ==> r == Some(value)
    ensures HasUrlSuffix(key) ==> r == env.fetch(value)
  {
    if HasUrlSuffix(key) then env.fetch(value) else Some(value)
  }

  predicate IsWriteEvent(kind: string) {
    kind == "ADDED" || kind == "MODIFIED"
  }

  /** A resource the reconciler acts on: it has labels, carries the target
      label, and has a data map. */
  predicate Selected(targetLabel: string, res: Resource) {
    res.labels.Some? && targetLabel in res.labels.value && res.data.Some?
  }

  /** The folder override annotation, when present, else the default folder. */
  function DestFolder(s: Settings, res: Resource): (r: string)
    ensures res.annotations.Some? && s.folderAnnotation in res.annotations.value ==>
              r == res.annotations.value[s.folderAnnotation]
    ensures res.annotations.None? || s.folderAnnotation !in res.annotations.value ==>
              r == s.targetFolder
  {
    if res.annotations.Some? && s.folderAnnotation in res.annotations.value
    then res.annotations.value[s.folderAnnotation]
    else s.targetFolder
  }

  /** The notification after one key's action: none without a url, one
      request otherwise, or the error `request` raises. */
  function Notify(o: Outcome, s: Settings): (r: Outcome)
    requires o.fault.None?
    ensures r.state == o.state
  {
    if s.url.None? then o
    else match Dispatch(s.url, s.verb, s.payload)
      case Err(why) => o.(fault := Some(NotifyFailed(why)))
      case Ok(req) => o.(trace := o.trace + [Notified(req)])
  }

  /** One iteration of the loop over the data keys. */
  function KeyStep(o: Outcome, folder: string, key: string, value: string, write: bool, s: Settings, env: Env): (r: Outcome)
    requires o.fault.None?
  {
    var filename := Filename(key);
    if write then
      match Content(key, value, env)
      case None => o.(fault := Some(FetchFailed(value)))
      case Some(fileData) =>
        match Write(o.state, folder, filename, fileData, env.mkdirOk(folder))
        case None => o.(fault := Some(MkdirFailed(folder)))
        case Some(st) => Notify(Outcome(st, o.trace + [Wrote(Path(folder, filename), fileData)], None), s)
    else
      var p := Path(folder, filename);
      var effect := if p in o.state.files then Removed(p) else NotFound(p);
      Notify(Outcome(Remove(o.state, folder, filename), o.trace + [effect], None), s)
  }

  /** The loop over the data keys from state `st`, stopping at the first error. */
  function RunKeys(st: FsState, folder: string, keys: seq<(string, string)>, write: bool, s: Settings, env: Env): (r: Outcome)
    decreases |keys|
  {
    if |keys| == 0 then Outcome(st, [], None)
    else
      var o := RunKeys(st, folder, keys[..|keys| - 1], write, s, env);
      if o.fault.Some? then o
      else KeyStep(o, folder, keys[|keys| - 1].0, keys[|keys| - 1].1, write, s, env)
  }

  /** One event: skipped entirely unless the resource is selected. */
  function Reconcile(s: Settings, ev: Event, env: Env, st: FsState): (r: Outcome)
    ensures !Selected(s.targetLabel, ev.obj) ==> r == Outcome(st, [], None)
  {
    if !Selected(s.targetLabel, ev.obj) then Outcome(st, [], None)
    else RunKeys(st, DestFolder(s, ev.obj), ev.obj.data.value, IsWriteEvent(ev.kind), s, env)
  }

  /** The one-shot list pass: every listed resource reconciled as ADDED, in
      order, stopping at the first error. */
  function ListPass(s: Settings, items: seq<Resource>, env: Env, st: FsState): (r: Outcome)
    decreases |items|
  {
    if |items| == 0 then Outcome(st, [], None)
    else
      var o := ListPass(s, items[..|items| - 1], env, st);
      if o.fault.Some? then o
      else
        var o' := Reconcile(s, Event("ADDED", items[|items| - 1]), env, o.state);
        Outcome(o'.state, o.trace + o'.trace, o'.fault)
  }

  /** An error stops the loop: once a prefix has failed, the whole run is
      that prefix's outcome. */
  lemma {:induction false} RunKeysFaultSticks(st: FsState, folder: string, keys: seq<(string, string)>, j: nat, write: bool, s: Settings, env: Env)
    requires j <= |keys|
    requires RunKeys(st, folder, keys[..j], write, s, env).fault.Some?
    ensures RunKeys(st, folder, keys, write, s, env) == RunKeys(st, folder, keys[..j], write, s, env)
    decreases |keys| - j
  {
    if j < |keys| {
      var prefix := keys[..|keys| - 1];
      assert prefix[..j] == keys[..j];
      RunKeysFaultSticks(st, folder, prefix, j, write, s, env);
    } else {
      assert keys[..j] == keys;
    }
  }

  lemma {:induction false} ListPassFaultSticks(s: Settings, items: seq<Resource>, j: nat, env: Env, st: FsState)
    requires j <= |items|
    requires ListPass(s, items[..j], env, st).fault.Some?
    ensures ListPass(s, items, env, st) == ListPass(s, items[..j], env, st)
    decreases |items| - j
  {
    if j < |items| {
      var prefix := items[..|items| - 1];
      assert prefix[..j] == items[..j];
      ListPassFaultSticks(s, prefix, j, env, st);
    } else {
      assert items[..j] == items;
    }
  }

  /** The loop body of `watchForChanges` for one event, on the store. */
  method ReconcileInto(store: Store, s: Settings, ev: Event, env: Env) returns (trace: seq<Effect>, fault: Option<Fault>)
    modifies store
    ensures Outcome(store.State(), trace, fault) == Reconcile(s, ev, env, old(store.State()))
  {
    trace, fault := [], None;
    var destFolder := s.targetFolder;
    var metadata := ev.obj;
    if metadata.labels.None? {
      return;
    }
    if s.targetLabel !in metadata.labels.value {
      return;
    }
    if metadata.annotations.Some? && s.folderAnnotation in metadata.annotations.value {
      destFolder := metadata.annotations.value[s.folderAnnotation];
    }
    if metadata.data.None? {
      return;
    }
    var dataMap := metadata.data.value;
    var write := IsWriteEvent(ev.kind);
    ghost var st0 := store.State();
    var i := 0;
    while i < |dataMap|
      invariant 0 <= i <= |dataMap|
      invariant RunKeys(st0, destFolder, dataMap[..i], write, s, env) == Outcome(store.State(), trace, None)
    {
      assert dataMap[..i + 1][..i] == dataMap[..i];
      var (key, value) := dataMap[i];
      var filename := key;
      if write {
        var fileData := value;
        if HasUrlSuffix(filename) {
          filename := filename[..|filename| - |UrlSuffix|];
          var body := env.fetch(value);
          if body.None? {
            fault := Some(FetchFailed(value));
            RunKeysFaultSticks(st0, destFolder, dataMap, i + 1, write, s, env);
            return;
          }
          fileData := body.value;
        }
        var ok := store.WriteTextToFile(destFolder, filename, fileData, env.mkdirOk(destFolder));
        if !ok {
          fault := Some(MkdirFailed(destFolder));
          RunKeysFaultSticks(st0, destFolder, dataMap, i + 1, write, s, env);
          return;
        }
        trace := trace + [Wrote(Path(destFolder, filename), fileData)];
      } else {
        if HasUrlSuffix(filename) {
          filename := filename[..|filename| - |UrlSuffix|];
        }
        var found := store.RemoveFile(destFolder, filename);
        var completeFile := Path(destFolder, filename);
        trace := trace + [if found then Removed(completeFile) else NotFound(completeFile)];
      }
      if s.url.Some? {
        var sent := Dispatch(s.url, s.verb, s.payload);
        if sent.Err? {
          fault := Some(NotifyFailed(sent.error));
          RunKeysFaultSticks(st0, destFolder, dataMap, i + 1, write, s, env);
          return;
        }
        trace := trace + [Notified(sent.value)];
      }
      i := i + 1;
    }
    assert dataMap[..i] == dataMap;
  }

  /** The loop of `listConfigmaps` over an already-listed set of config maps. */
  method ListPassInto(store: Store, s: Settings, items: seq<Resource>, env: Env) returns (trace: seq<Effect>, fault: Option<Fault>)
    modifies store
    ensures Outcome(store.State(), trace, fault) == ListPass(s, items, env, old(store.State()))
  {
    trace, fault := [], None;
    ghost var st0 := store.State();
    var i := 0;
    while i < |items|
      invariant 0 <= i <= |items|
      invariant ListPass(s, items[..i], env, st0) == Outcome(store.State(), trace, None)
    {
      assert items[..i + 1][..i] == items[..i];
      var t, f := ReconcileInto(store, s, Event("ADDED", items[i]), env);
      trace := trace + t;
      if f.Some? {
        fault := f;
        ListPassFaultSticks(s, items, i + 1, env, st0);
        return;
      }
      i := i + 1;
    }
    assert items[..i] == items;
  }
}
