/** What one event does to the store and to the effect log, proved about
    Reconciler.RunKeys and Reconciler.Reconcile. */
module ReconcilerProps {
  import opened Common
  import opened FileStore
  import opened Notifier
  import opened Reconciler

  /** The paths the keys of one event address in `folder`. */
  function KeyPaths(folder: string, keys: seq<(string, string)>): (r: set<string>)
    ensures forall i | 0 <= i < |keys| :: Path(folder, Filename(keys[i].0)) in r
    decreases |keys|
  {
    if |keys| == 0 then {}
    else KeyPaths(folder, keys[..|keys| - 1]) + {Path(folder, Filename(keys[|keys| - 1].0))}
  }

  /** Every path in KeyPaths comes from some key. */
  lemma {:induction false} KeyPathsFromKeys(folder: string, keys: seq<(string, string)>, p: string)
    requires p in KeyPaths(folder, keys)
    ensures exists i | 0 <= i < |keys| :: p == Path(folder, Filename(keys[i].0))
    decreases |keys|
  {
    var prefix := keys[..|keys| - 1];
    if p in KeyPaths(folder, prefix) {
      KeyPathsFromKeys(folder, prefix, p);
      var i :| 0 <= i < |prefix| && p == Path(folder, Filename(prefix[i].0));
      assert prefix[i] == keys[i];
    } else {
      assert p == Path(folder, Filename(keys[|keys| - 1].0));
    }
  }

  /** The index of the last key whose file name is `f`, or -1. */
  function LastIndexOf(keys: seq<(string, string)>, f: string): (r: int)
    ensures -1 <= r < |keys|
    ensures r >= 0 ==> Filename(keys[r].0) == f
    ensures forall j | r < j < |keys| :: Filename(keys[j].0) != f
    decreases |keys|
  {
    if |keys| == 0 then -1
    else if Filename(keys[|keys| - 1].0) == f then |keys| - 1
    else LastIndexOf(keys[..|keys| - 1], f)
  }

  /** Every key's content can be obtained (no fetch raises). */
  predicate AllResolved(keys: seq<(string, string)>, env: Env) {
    forall i | 0 <= i < |keys| :: Content(keys[i].0, keys[i].1, env).Some?
  }

  /** A notification after an action cannot fail. */
  predicate NotifyOk(s: Settings) {
    s.url.None? || Dispatch(s.url, s.verb, s.payload).Ok?
  }

  /** The files a write event puts in place, later keys overriding earlier
      ones. */
  function Overlay(folder: string, keys: seq<(string, string)>, env: Env): map<string, string>
    requires AllResolved(keys, env)
    decreases |keys|
  {
    if |keys| == 0 then map[]
    else
      var k := keys[|keys| - 1];
      Overlay(folder, keys[..|keys| - 1], env)[Path(folder, Filename(k.0)) := Content(k.0, k.1, env).value]
  }

  /** The overlay holds, at the path of file name `f`, the content of the last
      key naming `f`, and nothing at paths no key names. */
  lemma {:induction false} OverlayAt(folder: string, keys: seq<(string, string)>, env: Env, f: string)
    requires AllResolved(keys, env)
    ensures var j := LastIndexOf(keys, f);
      && (Path(folder, f) in Overlay(folder, keys, env) <==> j >= 0)
      && (j >= 0 ==> Overlay(folder, keys, env)[Path(folder, f)] == Content(keys[j].0, keys[j].1, env).value)
    decreases |keys|
  {
    if |keys| > 0 {
      var k := keys[|keys| - 1];
      PathInjective(folder, Filename(k.0), f);
      OverlayAt(folder, keys[..|keys| - 1], env, f);
    }
  }

  lemma {:induction false} OverlayKeys(folder: string, keys: seq<(string, string)>, env: Env)
    requires AllResolved(keys, env)
    ensures Overlay(folder, keys, env).Keys == KeyPaths(folder, keys)
    decreases |keys|
  {
    if |keys| > 0 {
      OverlayKeys(folder, keys[..|keys| - 1], env);
    }
  }

  /** A write event that raises nothing resolved every key, created the folder
      if there was a key, and laid the overlay over the old files. */
  lemma {:induction false} WriteShape(st: FsState, folder: string, keys: seq<(string, string)>, s: Settings, env: Env)
    requires RunKeys(st, folder, keys, true, s, env).fault.None?
    ensures AllResolved(keys, env)
    ensures |keys| > 0 ==> NotifyOk(s)
    ensures RunKeys(st, folder, keys, true, s, env).state
         == FsState(st.files + Overlay(folder, keys, env), if |keys| == 0 then st.dirs else st.dirs + {folder})
    decreases |keys|
  {
    if |keys| > 0 {
      var prefix := keys[..|keys| - 1];
      var k := keys[|keys| - 1];
      var o := RunKeys(st, folder, prefix, true, s, env);
      assert o.fault.None?;
      WriteShape(st, folder, prefix, s, env);
      assert Content(k.0, k.1, env).Some?;
      forall i | 0 <= i < |keys|
        ensures Content(keys[i].0, keys[i].1, env).Some?
      {
        if i < |prefix| {
          assert prefix[i] == keys[i];
        }
      }
      var p := Path(folder, Filename(k.0));
      var c := Content(k.0, k.1, env).value;
      assert (st.files + Overlay(folder, prefix, env))[p := c] == st.files + Overlay(folder, prefix, env)[p := c];
    }
  }

  /** A write event cannot raise when every key resolves, the folder exists
      or can be created, and notifications cannot fail. */
  lemma {:induction false} WriteNoFault(st: FsState, folder: string, keys: seq<(string, string)>, s: Settings, env: Env)
    requires AllResolved(keys, env) && (folder in st.dirs || env.mkdirOk(folder)) && NotifyOk(s)
    ensures RunKeys(st, folder, keys, true, s, env).fault.None?
    decreases |keys|
  {
    if |keys| > 0 {
      var prefix := keys[..|keys| - 1];
      assert AllResolved(prefix, env) by {
        forall i | 0 <= i < |prefix|
          ensures Content(prefix[i].0, prefix[i].1, env).Some?
        {
          assert prefix[i] == keys[i];
        }
      }
      WriteNoFault(st, folder, prefix, s, env);
      WriteShape(st, folder, prefix, s, env);
      assert Content(keys[|keys| - 1].0, keys[|keys| - 1].1, env).Some?;
    }
  }

  /** A missing folder that makedirs cannot create stops a write event at its
      first key (when that key's content resolves). */
  lemma WriteMkdirFails(st: FsState, folder: string, keys: seq<(string, string)>, s: Settings, env: Env)
    requires |keys| > 0 && Content(keys[0].0, keys[0].1, env).Some?
    requires folder !in st.dirs && !env.mkdirOk(folder)
    ensures RunKeys(st, folder, keys, true, s, env).fault == Some(MkdirFailed(folder))
  {
    assert keys[..1][..0] == [];
    RunKeysFaultSticks(st, folder, keys, 1, true, s, env);
  }

  /** Together: a write event whose keys resolve and whose notifications
      cannot fail raises exactly when its folder is missing and makedirs
      fails. */
  lemma WriteFaultIff(st: FsState, folder: string, keys: seq<(string, string)>, s: Settings, env: Env)
    requires |keys| > 0 && AllResolved(keys, env) && NotifyOk(s)
    ensures RunKeys(st, folder, keys, true, s, env).fault.None? <==> folder in st.dirs || env.mkdirOk(folder)
  {
    if folder in st.dirs || env.mkdirOk(folder) {
      WriteNoFault(st, folder, keys, s, env);
    } else {
      WriteMkdirFails(st, folder, keys, s, env);
    }
  }

  /** After an ADDED or MODIFIED event that raises nothing, the file named `f`
      in the destination folder holds the content of the LAST key naming `f`;
      when no key names `f`, that path is as it was. */
  lemma WriteLastWins(st: FsState, folder: string, keys: seq<(string, string)>, s: Settings, env: Env, f: string)
    requires RunKeys(st, folder, keys, true, s, env).fault.None?
    ensures var files := RunKeys(st, folder, keys, true, s, env).state.files;
      var j := LastIndexOf(keys, f);
      && (j >= 0 ==> Path(folder, f) in files && Content(keys[j].0, keys[j].1, env) == Some(files[Path(folder, f)]))
      && (j < 0 ==> (Path(folder, f) in files <==> Path(folder, f) in st.files))
      && (j < 0 && Path(folder, f) in st.files ==> files[Path(folder, f)] == st.files[Path(folder, f)])
  {
    WriteShape(st, folder, keys, s, env);
    OverlayAt(folder, keys, env, f);
  }

  /** A write event leaves every path its keys do not name untouched, and
      the folder exists afterwards when the event had a key. */
  lemma WriteFrame(st: FsState, folder: string, keys: seq<(string, string)>, s: Settings, env: Env)
    requires RunKeys(st, folder, keys, true, s, env).fault.None?
    ensures var o := RunKeys(st, folder, keys, true, s, env);
      && o.state.files - KeyPaths(folder, keys) == st.files - KeyPaths(folder, keys)
      && o.state.files.Keys == st.files.Keys + KeyPaths(folder, keys)
      && o.state.dirs == (if |keys| == 0 then st.dirs else st.dirs + {folder})
  {
    WriteShape(st, folder, keys, s, env);
    OverlayKeys(folder, keys, env);
  }

  /** Re-applying a write event that succeeded changes nothing more and
      cannot fail: the redelivery after a restart is harmless. */
  lemma WriteIdempotent(st: FsState, folder: string, keys: seq<(string, string)>, s: Settings, env: Env)
    requires RunKeys(st, folder, keys, true, s, env).fault.None?
    ensures var st1 := RunKeys(st, folder, keys, true, s, env).state;
      RunKeys(st1, folder, keys, true, s, env).fault.None? && RunKeys(st1, folder, keys, true, s, env).state == st1
  {
    var st1 := RunKeys(st, folder, keys, true, s, env).state;
    WriteShape(st, folder, keys, s, env);
    if |keys| > 0 {
      WriteNoFault(st1, folder, keys, s, env);
      WriteShape(st1, folder, keys, s, env);
      var ov := Overlay(folder, keys, env);
      assert (st.files + ov) + ov == st.files + ov;
    }
  }

  /** A DELETED (or any non-write) event removes exactly the files its keys
      name, never touches folders, and can only fail while notifying. */
  lemma {:induction false} DeleteShape(st: FsState, folder: string, keys: seq<(string, string)>, s: Settings, env: Env)
    ensures var o := RunKeys(st, folder, keys, false, s, env);
      && o.state.dirs == st.dirs
      && (o.fault.None? ==> o.state.files == st.files - KeyPaths(folder, keys))
      && (o.fault.Some? ==> o.fault.value.NotifyFailed? && !NotifyOk(s))
    decreases |keys|
  {
    if |keys| > 0 {
      var prefix := keys[..|keys| - 1];
      DeleteShape(st, folder, prefix, s, env);
      var o := RunKeys(st, folder, prefix, false, s, env);
      if o.fault.None? {
        var p := Path(folder, Filename(keys[|keys| - 1].0));
        assert st.files - KeyPaths(folder, prefix) - {p} == st.files - KeyPaths(folder, keys);
      }
    }
  }

  /** A non-write event never fetches and never creates a folder: its outcome
      does not depend on what the network or makedirs would answer. */
  lemma {:induction false} DeleteIgnoresEnv(st: FsState, folder: string, keys: seq<(string, string)>, s: Settings, env1: Env, env2: Env)
    ensures RunKeys(st, folder, keys, false, s, env1) == RunKeys(st, folder, keys, false, s, env2)
    decreases |keys|
  {
    if |keys| > 0 {
      DeleteIgnoresEnv(st, folder, keys[..|keys| - 1], s, env1, env2);
    }
  }

  /** The action an effect log entry records for one key. */
  predicate ActionFor(e: Effect, folder: string, key: string, value: string, write: bool, env: Env) {
    if write then e.Wrote? && e.path == Path(folder, Filename(key)) && Content(key, value, env) == Some(e.content)
    else (e.Removed? || e.NotFound?) && e.path == Path(folder, Filename(key))
  }

  /** A log entry recording the configured notification. */
  predicate NotifiedFor(e: Effect, s: Settings) {
    e.Notified? && Dispatch(s.url, s.verb, s.payload) == Ok(e.request)
  }

  /** One loop iteration that raises nothing appends its action and, when a
      url is set, one notification. */
  lemma KeyStepTrace(o: Outcome, folder: string, key: string, value: string, write: bool, s: Settings, env: Env)
    requires o.fault.None?
    requires KeyStep(o, folder, key, value, write, s, env).fault.None?
    ensures var t := KeyStep(o, folder, key, value, write, s, env).trace;
      && |t| == |o.trace| + (if s.url.Some? then 2 else 1)
      && t[..|o.trace|] == o.trace
      && ActionFor(t[|o.trace|], folder, key, value, write, env)
      && (s.url.Some? ==> NotifiedFor(t[|o.trace| + 1], s))
  {
  }

  /** With no error and no url, the log holds exactly one action per key, in
      key order, and no notification. */
  lemma {:induction false} TraceWithoutUrl(st: FsState, folder: string, keys: seq<(string, string)>, write: bool, s: Settings, env: Env)
    requires RunKeys(st, folder, keys, write, s, env).fault.None?
    requires s.url.None?
    ensures var t := RunKeys(st, folder, keys, write, s, env).trace;
      |t| == |keys| && forall i | 0 <= i < |keys| :: ActionFor(t[i], folder, keys[i].0, keys[i].1, write, env)
    decreases |keys|
  {
    if |keys| > 0 {
      var prefix := keys[..|keys| - 1];
      var k := keys[|keys| - 1];
      var o := RunKeys(st, folder, prefix, write, s, env);
      assert o.fault.None?;
      TraceWithoutUrl(st, folder, prefix, write, s, env);
      KeyStepTrace(o, folder, k.0, k.1, write, s, env);
      var t := KeyStep(o, folder, k.0, k.1, write, s, env).trace;
      forall i | 0 <= i < |keys|
        ensures ActionFor(t[i], folder, keys[i].0, keys[i].1, write, env)
      {
        if i < |prefix| {
          assert prefix[i] == keys[i];
          assert t[..|prefix|][i] == t[i];
        }
      }
    }
  }

  /** With no error and a url, the log alternates: the action for key i at
      position 2i, in key order, and one notification right after each. */
  lemma {:induction false} TraceWithUrl(st: FsState, folder: string, keys: seq<(string, string)>, write: bool, s: Settings, env: Env)
    requires RunKeys(st, folder, keys, write, s, env).fault.None?
    requires s.url.Some?
    ensures var t := RunKeys(st, folder, keys, write, s, env).trace;
      && |t| == 2 * |keys|
      && (forall i | 0 <= i < |keys| :: ActionFor(t[2 * i], folder, keys[i].0, keys[i].1, write, env) && NotifiedFor(t[2 * i + 1], s))
    decreases |keys|
  {
    if |keys| > 0 {
      var prefix := keys[..|keys| - 1];
      var k := keys[|keys| - 1];
      var o := RunKeys(st, folder, prefix, write, s, env);
      assert o.fault.None?;
      TraceWithUrl(st, folder, prefix, write, s, env);
      KeyStepTrace(o, folder, k.0, k.1, write, s, env);
      var t := KeyStep(o, folder, k.0, k.1, write, s, env).trace;
      var n := |prefix|;
      forall i | 0 <= i < |keys|
        ensures ActionFor(t[2 * i], folder, keys[i].0, keys[i].1, write, env) && NotifiedFor(t[2 * i + 1], s)
      {
        if i < n {
          assert prefix[i] == keys[i];
          assert t[..2 * n][2 * i] == t[2 * i];
          assert t[..2 * n][2 * i + 1] == t[2 * i + 1];
        }
      }
    }
  }

  /** Event level: the folder and the write-or-remove choice come from the
      event itself, and the log pairs each key with its notification. */
  lemma ReconcileEffects(s: Settings, ev: Event, env: Env, st: FsState)
    requires Selected(s.targetLabel, ev.obj)
    requires Reconcile(s, ev, env, st).fault.None?
    ensures var t := Reconcile(s, ev, env, st).trace;
      var keys := ev.obj.data.value;
      var folder := DestFolder(s, ev.obj);
      && (s.url.None? ==> |t| == |keys| && forall i | 0 <= i < |keys| :: ActionFor(t[i], folder, keys[i].0, keys[i].1, IsWriteEvent(ev.kind), env))
      && (s.url.None? ==> forall i | 0 <= i < |t| :: !t[i].Notified?)
      && (s.url.Some? ==> |t| == 2 * |keys|)
      && (s.url.Some? ==> forall i | 0 <= i < |keys| ::
            ActionFor(t[2 * i], folder, keys[i].0, keys[i].1, IsWriteEvent(ev.kind), env) && NotifiedFor(t[2 * i + 1], s))
  {
    var keys := ev.obj.data.value;
    var t := Reconcile(s, ev, env, st).trace;
    if s.url.Some? {
      TraceWithUrl(st, DestFolder(s, ev.obj), keys, IsWriteEvent(ev.kind), s, env);
    } else {
      TraceWithoutUrl(st, DestFolder(s, ev.obj), keys, IsWriteEvent(ev.kind), s, env);
      forall i | 0 <= i < |t|
        ensures !t[i].Notified?
      {
        assert ActionFor(t[i], DestFolder(s, ev.obj), keys[i].0, keys[i].1, IsWriteEvent(ev.kind), env);
      }
    }
  }

  /** Event level, ADDED or MODIFIED: each key's file at the event's
      destination folder holds the last same-named key's content, and
      re-applying the event leaves the store as it is. */
  lemma ReconcileWrite(s: Settings, ev: Event, env: Env, st: FsState, f: string)
    requires Selected(s.targetLabel, ev.obj) && IsWriteEvent(ev.kind)
    requires Reconcile(s, ev, env, st).fault.None?
    ensures var st1 := Reconcile(s, ev, env, st).state;
      var keys := ev.obj.data.value;
      var j := LastIndexOf(keys, f);
      var p := Path(DestFolder(s, ev.obj), f);
      && (j >= 0 ==> p in st1.files && Content(keys[j].0, keys[j].1, env) == Some(st1.files[p]))
      && (j < 0 ==> (p in st1.files <==> p in st.files))
      && Reconcile(s, ev, env, st1).state == st1
      && Reconcile(s, ev, env, st1).fault.None?
  {
    var folder := DestFolder(s, ev.obj);
    WriteLastWins(st, folder, ev.obj.data.value, s, env, f);
    WriteIdempotent(st, folder, ev.obj.data.value, s, env);
  }

  /** Event level, any other kind: the event's key paths are gone, nothing
      else changed, and the outcome is independent of the fetch and makedirs
      oracles. */
  lemma ReconcileDelete(s: Settings, ev: Event, env: Env, env': Env, st: FsState)
    requires Selected(s.targetLabel, ev.obj) && !IsWriteEvent(ev.kind)
    ensures var o := Reconcile(s, ev, env, st);
      && o == Reconcile(s, ev, env', st)
      && o.state.dirs == st.dirs
      && (NotifyOk(s) ==> o.fault.None? && o.state.files == st.files - KeyPaths(DestFolder(s, ev.obj), ev.obj.data.value))
  {
    var folder := DestFolder(s, ev.obj);
    DeleteShape(st, folder, ev.obj.data.value, s, env);
    DeleteIgnoresEnv(st, folder, ev.obj.data.value, s, env, env');
  }

  /** The labelled config map with data {"a.json": "{}"}, written to "/out". */
  lemma DashboardExample(env: Env)
    ensures var s := Settings("dashboard", "/out", "k8s-sidecar-target-directory", None, None, None);
      var cm := Resource("ns", "r1", Some(map["dashboard" := "1"]), None, Some([("a.json", "{}")]));
      var o := Reconcile(s, Event("ADDED", cm), env, FsState(map[], {"/out"}));
      o.fault.None? && o.state.files == map["/out/a.json" := "{}"]
  {
    var key := "a.json";
    assert !HasUrlSuffix(key) by {
      assert key[|key| - 4..] == "json";
    }
    var keys := [(key, "{}")];
    assert keys[..0] == [];
    assert Path("/out", key) == "/out/a.json";
  }
}
