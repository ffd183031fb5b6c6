/** What the one-shot list pass does to the store, proved about
    Reconciler.ListPass: re-running it is harmless, and every selected
    resource's files are present afterwards. */
module ListProps {
  import opened Common
  import opened FileStore
  import opened Reconciler
  import opened ReconcilerProps

  /** A listed resource whose keys all resolve and whose notifications, if
      any are due, cannot fail. */
  predicate ItemOk(s: Settings, r: Resource, env: Env) {
    Selected(s.targetLabel, r) ==>
      AllResolved(r.data.value, env) && (|r.data.value| > 0 ==> NotifyOk(s))
  }

  predicate ListOk(s: Settings, items: seq<Resource>, env: Env) {
    forall i | 0 <= i < |items| :: ItemOk(s, items[i], env)
  }

  /** The files one listed resource puts in place. */
  function ItemOverlay(s: Settings, r: Resource, env: Env): map<string, string> {
    if Selected(s.targetLabel, r) && AllResolved(r.data.value, env)
    then Overlay(DestFolder(s, r), r.data.value, env)
    else map[]
  }

  /** The folder one listed resource creates, if any. */
  function ItemFolders(s: Settings, r: Resource): set<string> {
    if Selected(s.targetLabel, r) && |r.data.value| > 0 then {DestFolder(s, r)} else {}
  }

  /** All files the pass puts in place, a later resource overriding an
      earlier one on a shared path. */
  function ListOverlay(s: Settings, items: seq<Resource>, env: Env): map<string, string>
    decreases |items|
  {
    if |items| == 0 then map[]
    else ListOverlay(s, items[..|items| - 1], env) + ItemOverlay(s, items[|items| - 1], env)
  }

  function ListFolders(s: Settings, items: seq<Resource>): set<string>
    decreases |items|
  {
    if |items| == 0 then {}
    else ListFolders(s, items[..|items| - 1]) + ItemFolders(s, items[|items| - 1])
  }

  /** One listed resource reconciled without error. */
  lemma ItemShape(s: Settings, r: Resource, env: Env, st: FsState)
    requires Reconcile(s, Event("ADDED", r), env, st).fault.None?
    ensures ItemOk(s, r, env)
    ensures Reconcile(s, Event("ADDED", r), env, st).state
         == FsState(st.files + ItemOverlay(s, r, env), st.dirs + ItemFolders(s, r))
  {
    if Selected(s.targetLabel, r) {
      WriteShape(st, DestFolder(s, r), r.data.value, s, env);
    } else {
      assert st.files + map[] == st.files;
    }
  }

  lemma ListOkSnoc(s: Settings, items: seq<Resource>, r: Resource, env: Env)
    requires ListOk(s, items, env) && ItemOk(s, r, env)
    ensures ListOk(s, items + [r], env)
  {
  }

  /** Map union is associative; kept as a lemma so that the solver meets it
      outside the larger context of ListShape. */
  lemma MergeAssoc(a: map<string, string>, b: map<string, string>, c: map<string, string>)
    ensures (a + b) + c == a + (b + c)
  {
  }

  /** A failing prefix makes the whole pass fail, so a pass that raises
      nothing raised nothing on its prefix either. */
  lemma PrefixNoFault(s: Settings, items: seq<Resource>, env: Env, st: FsState)
    requires |items| > 0 && ListPass(s, items, env, st).fault.None?
    ensures ListPass(s, items[..|items| - 1], env, st).fault.None?
    ensures ListPass(s, items, env, st)
         == var o := ListPass(s, items[..|items| - 1], env, st);
            var o' := Reconcile(s, Event("ADDED", items[|items| - 1]), env, o.state);
            Outcome(o'.state, o.trace + o'.trace, o'.fault)
  {
  }

  /** A pass that raises nothing had every resource resolvable. */
  lemma {:induction false} ListPassOk(s: Settings, items: seq<Resource>, env: Env, st: FsState)
    requires ListPass(s, items, env, st).fault.None?
    ensures ListOk(s, items, env)
    decreases |items|
  {
    if |items| > 0 {
      var prefix := items[..|items| - 1];
      var r := items[|items| - 1];
      PrefixNoFault(s, items, env, st);
      ListPassOk(s, prefix, env, st);
      ItemShape(s, r, env, ListPass(s, prefix, env, st).state);
      ListOkSnoc(s, prefix, r, env);
      assert items == prefix + [r];
    }
  }

  /** A pass that raises nothing had every resource resolvable, and laid the
      resources' files over the old ones in list order. */
  lemma {:induction false} ListShape(s: Settings, items: seq<Resource>, env: Env, st: FsState)
    requires ListPass(s, items, env, st).fault.None?
    ensures ListPass(s, items, env, st).state
         == FsState(st.files + ListOverlay(s, items, env), st.dirs + ListFolders(s, items))
    decreases |items|
  {
    if |items| > 0 {
      var prefix := items[..|items| - 1];
      var r := items[|items| - 1];
      PrefixNoFault(s, items, env, st);
      ListShape(s, prefix, env, st);
      var o := ListPass(s, prefix, env, st);
      ItemShape(s, r, env, o.state);
      var lo := ListOverlay(s, prefix, env);
      var io := ItemOverlay(s, r, env);
      var lf := ListFolders(s, prefix);
      var f := ItemFolders(s, r);
      assert ListOverlay(s, items, env) == lo + io;
      assert ListFolders(s, items) == lf + f;
      assert o.state == FsState(st.files + lo, st.dirs + lf);
      MergeAssoc(st.files, lo, io);
      assert (st.dirs + lf) + f == st.dirs + (lf + f);
    }
  }

  /** A pass cannot raise when every resource is resolvable and every folder
      it would create exists or can be created. */
  lemma {:induction false} ListNoFault(s: Settings, items: seq<Resource>, env: Env, st: FsState)
    requires ListOk(s, items, env)
    requires forall d | d in ListFolders(s, items) :: d in st.dirs || env.mkdirOk(d)
    ensures ListPass(s, items, env, st).fault.None?
    decreases |items|
  {
    if |items| > 0 {
      var prefix := items[..|items| - 1];
      var r := items[|items| - 1];
      assert ListOk(s, prefix, env) by {
        forall i | 0 <= i < |prefix|
          ensures ItemOk(s, prefix[i], env)
        {
          assert prefix[i] == items[i];
        }
      }
      ListNoFault(s, prefix, env, st);
      ListShape(s, prefix, env, st);
      var o := ListPass(s, prefix, env, st);
      assert ItemOk(s, r, env);
      if Selected(s.targetLabel, r) && |r.data.value| > 0 {
        WriteNoFault(o.state, DestFolder(s, r), r.data.value, s, env);
      }
    }
  }

  /** Running the list pass again on its own result raises nothing and
      changes nothing: the full re-list after a restart is harmless. */
  lemma ListPassIdempotent(s: Settings, items: seq<Resource>, env: Env, st: FsState)
    requires ListPass(s, items, env, st).fault.None?
    ensures var st1 := ListPass(s, items, env, st).state;
      ListPass(s, items, env, st1).fault.None? && ListPass(s, items, env, st1).state == st1
  {
    var st1 := ListPass(s, items, env, st).state;
    ListShape(s, items, env, st);
    ListPassOk(s, items, env, st);
    ListNoFault(s, items, env, st1);
    ListShape(s, items, env, st1);
    var lo := ListOverlay(s, items, env);
    assert (st.files + lo) + lo == st.files + lo;
  }

  /** Every file a listed resource's overlay holds is in the pass's overlay. */
  lemma {:induction false} ListOverlayCovers(s: Settings, items: seq<Resource>, env: Env, i: nat)
    requires i < |items|
    ensures ItemOverlay(s, items[i], env).Keys <= ListOverlay(s, items, env).Keys
    decreases |items|
  {
    if i < |items| - 1 {
      var prefix := items[..|items| - 1];
      assert prefix[i] == items[i];
      ListOverlayCovers(s, prefix, env, i);
    }
  }

  /** After a pass that raises nothing, every key of every selected resource
      has its file at that resource's destination folder. */
  lemma ListPassCovers(s: Settings, items: seq<Resource>, env: Env, st: FsState, i: nat)
    requires ListPass(s, items, env, st).fault.None?
    requires i < |items| && Selected(s.targetLabel, items[i])
    ensures KeyPaths(DestFolder(s, items[i]), items[i].data.value) <= ListPass(s, items, env, st).state.files.Keys
  {
    ListShape(s, items, env, st);
    ListPassOk(s, items, env, st);
    assert ItemOk(s, items[i], env);
    OverlayKeys(DestFolder(s, items[i]), items[i].data.value, env);
    ListOverlayCovers(s, items, env, i);
  }

  /** A resource that is not selected contributes nothing to the pass. */
  lemma ListPassSkipsUnselected(s: Settings, items: seq<Resource>, r: Resource, env: Env, st: FsState)
    requires !Selected(s.targetLabel, r)
    ensures ListPass(s, items + [r], env, st) == ListPass(s, items, env, st)
  {
  }

  /** A file of one listed resource survives in the pass's files when no
      later resource lays a file at the same path. */
  lemma {:induction false} ListOverlayAt(s: Settings, items: seq<Resource>, env: Env, i: nat, p: string)
    requires i < |items| && p in ItemOverlay(s, items[i], env)
    requires forall k | i < k < |items| :: p !in ItemOverlay(s, items[k], env)
    ensures p in ListOverlay(s, items, env) && ListOverlay(s, items, env)[p] == ItemOverlay(s, items[i], env)[p]
    decreases |items|
  {
    if i < |items| - 1 {
      var prefix := items[..|items| - 1];
      assert prefix[i] == items[i];
      forall k | i < k < |prefix|
        ensures p !in ItemOverlay(s, prefix[k], env)
      {
        assert prefix[k] == items[k];
      }
      ListOverlayAt(s, prefix, env, i, p);
    }
  }

  /** A listed resource lays files only at its own key paths. */
  lemma ItemOverlayKeys(s: Settings, r: Resource, env: Env)
    ensures Selected(s.targetLabel, r) ==> ItemOverlay(s, r, env).Keys <= KeyPaths(DestFolder(s, r), r.data.value)
    ensures !Selected(s.targetLabel, r) ==> ItemOverlay(s, r, env) == map[]
  {
    if Selected(s.targetLabel, r) && AllResolved(r.data.value, env) {
      OverlayKeys(DestFolder(s, r), r.data.value, env);
    }
  }

  /** After a pass that raises nothing, the file named `f` in a selected
      resource's destination folder holds the content of that resource's
      last key naming `f`, unless a later selected resource also writes that
      path (the later resource wins). */
  lemma ListPassAt(s: Settings, items: seq<Resource>, env: Env, st: FsState, i: nat, f: string)
    requires ListPass(s, items, env, st).fault.None?
    requires i < |items| && Selected(s.targetLabel, items[i])
    requires LastIndexOf(items[i].data.value, f) >= 0
    requires forall k | i < k < |items| && Selected(s.targetLabel, items[k]) ::
      Path(DestFolder(s, items[i]), f) !in KeyPaths(DestFolder(s, items[k]), items[k].data.value)
    ensures var files := ListPass(s, items, env, st).state.files;
      var keys := items[i].data.value;
      var j := LastIndexOf(keys, f);
      var p := Path(DestFolder(s, items[i]), f);
      p in files && Content(keys[j].0, keys[j].1, env) == Some(files[p])
  {
    var keys := items[i].data.value;
    var folder := DestFolder(s, items[i]);
    var p := Path(folder, f);
    ListShape(s, items, env, st);
    ListPassOk(s, items, env, st);
    assert ItemOk(s, items[i], env);
    OverlayAt(folder, keys, env, f);
    forall k | i < k < |items|
      ensures p !in ItemOverlay(s, items[k], env)
    {
      ItemOverlayKeys(s, items[k], env);
    }
    ListOverlayAt(s, items, env, i, p);
  }

  /** A path no selected resource's keys name keeps its old content. */
  lemma {:induction false} ListPassUntouched(s: Settings, items: seq<Resource>, env: Env, st: FsState, p: string)
    requires ListPass(s, items, env, st).fault.None?
    requires forall k | 0 <= k < |items| && Selected(s.targetLabel, items[k]) ::
      p !in KeyPaths(DestFolder(s, items[k]), items[k].data.value)
    ensures var files := ListPass(s, items, env, st).state.files;
      (p in files <==> p in st.files) && (p in st.files ==> files[p] == st.files[p])
  {
    ListShape(s, items, env, st);
    ListOverlayMisses(s, items, env, p);
  }

  lemma {:induction false} ListOverlayMisses(s: Settings, items: seq<Resource>, env: Env, p: string)
    requires forall k | 0 <= k < |items| && Selected(s.targetLabel, items[k]) ::
      p !in KeyPaths(DestFolder(s, items[k]), items[k].data.value)
    ensures p !in ListOverlay(s, items, env)
    decreases |items|
  {
    if |items| > 0 {
      var prefix := items[..|items| - 1];
      forall k | 0 <= k < |prefix| && Selected(s.targetLabel, prefix[k])
        ensures p !in KeyPaths(DestFolder(s, prefix[k]), prefix[k].data.value)
      {
        assert prefix[k] == items[k];
      }
      ListOverlayMisses(s, prefix, env, p);
      ItemOverlayKeys(s, items[|items| - 1], env);
    }
  }
}
