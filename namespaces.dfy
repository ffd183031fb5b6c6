/** How `listConfigmaps` and `watchForChanges` choose which config maps to
    follow: the namespace addressing mode, chosen from NAMESPACE and
    NAMESPACE_LABELS, and the parse of the namespace label selector
    `dict(m.split("=") for m in selector.split(","))`. */
module Namespaces {
  import opened Common

  /** Number of occurrences of `c` in `s`. */
  function Occurrences(s: string, c: char): nat
    decreases |s|
  {
    if |s| == 0 then 0 else (if s[0] == c then 1 else 0) + Occurrences(s[1..], c)
  }

  /** `sep.join(parts)`. */
  function Join(parts: seq<string>, sep: char): string
    decreases |parts|
  {
    if |parts| == 0 then ""
    else if |parts| == 1 then parts[0]
    else parts[0] + [sep] + Join(parts[1..], sep)
  }

  /** `s.split(sep)` with an explicit separator: cut at every occurrence, so
      there is always one more piece than separators, and "" gives [""]. */
  function Split(s: string, sep: char): (r: seq<string>)
    ensures |r| == Occurrences(s, sep) + 1
    ensures forall i | 0 <= i < |r| :: sep !in r[i]
    ensures Join(r, sep) == s
    decreases |s|
  {
    if |s| == 0 then [""]
    else
      var rest := Split(s[1..], sep);
      if s[0] == sep then [""] + rest
      else [[s[0]] + rest[0]] + rest[1..]
  }

  /** Splitting a string whose first part holds no separator. */
  lemma {:induction false} SplitAfterPlain(a: string, b: string, sep: char)
    requires sep !in a
    ensures Split(a + b, sep) == [a + Split(b, sep)[0]] + Split(b, sep)[1..]
    decreases |a|
  {
    if |a| > 0 {
      assert (a + b)[1..] == a[1..] + b;
      SplitAfterPlain(a[1..], b, sep);
      assert [a[0]] + (a[1..] + Split(b, sep)[0]) == a + Split(b, sep)[0];
    } else {
      var r := Split(b, sep);
      assert a + b == b;
      assert a + r[0] == r[0];
      assert r == [r[0]] + r[1..];
    }
  }

  /** `Split` undoes `Join` when no part holds the separator. */
  lemma {:induction false} SplitJoin(parts: seq<string>, sep: char)
    requires |parts| >= 1
    requires forall i | 0 <= i < |parts| :: sep !in parts[i]
    ensures Split(Join(parts, sep), sep) == parts
    decreases |parts|
  {
    if |parts| == 1 {
      SplitAfterPlain(parts[0], "", sep);
      assert parts[0] + "" == parts[0];
    } else {
      var rest := parts[1..];
      SplitJoin(rest, sep);
      var tail := [sep] + Join(rest, sep);
      assert Join(parts, sep) == parts[0] + tail;
      SplitAfterPlain(parts[0], tail, sep);
      assert tail[1..] == Join(rest, sep);
      assert Split(tail, sep) == [""] + rest;
      assert parts[0] + "" == parts[0];
      assert [parts[0]] + rest == parts;
    }
  }

  /** The ValueError `dict` raises for an item that does not split on `=`
      into exactly two parts. */
  datatype SelectorError = BadItem(item: string, length: nat)

  predicate IsPair(item: string) {
    |Split(item, '=')| == 2
  }

  /** `dict(m.split("=") for m in items)`: items in order, a later key
      replacing an earlier one, the first malformed item raising. */
  function ParseItems(items: seq<string>): (r: Result<map<string, string>, SelectorError>)
    ensures r.Err? ==> r.error.item in items && r.error.length == |Split(r.error.item, '=')| != 2
    decreases |items|
  {
    if |items| == 0 then Ok(map[])
    else
      match ParseItems(items[..|items| - 1])
      case Err(e) => Err(e)
      case Ok(m) =>
        var item := items[|items| - 1];
        var parts := Split(item, '=');
        if |parts| != 2 then Err(BadItem(item, |parts|)) else Ok(m[parts[0] := parts[1]])
  }

  /** A malformed selector is reported by one of its comma-separated items. */
  function ParseSelector(selector: string): (r: Result<map<string, string>, SelectorError>)
    ensures r.Err? ==> ',' !in r.error.item && r.error.length != 2
  {
    ParseItems(Split(selector, ','))
  }

  /** The index of the first malformed item, or -1. */
  function FirstBad(items: seq<string>): (r: int)
    ensures -1 <= r < |items|
    ensures r >= 0 ==> !IsPair(items[r])
    ensures forall j | 0 <= j < |items| && (r < 0 || j < r) :: IsPair(items[j])
    decreases |items|
  {
    if |items| == 0 then -1
    else
      var prefix := items[..|items| - 1];
      var r := FirstBad(prefix);
      assert forall j | 0 <= j < |prefix| :: prefix[j] == items[j];
      if r >= 0 then r else if !IsPair(items[|items| - 1]) then |items| - 1 else -1
  }

  /** The parse fails exactly when some item is malformed, and then it
      reports the first such item. */
  lemma {:induction false} ParseItemsError(items: seq<string>)
    ensures ParseItems(items).Err? <==> FirstBad(items) >= 0
    ensures ParseItems(items).Err? ==> ParseItems(items).error.item == items[FirstBad(items)]
    decreases |items|
  {
    if |items| > 0 {
      ParseItemsError(items[..|items| - 1]);
    }
  }

  /** The index of the last item whose key is `k`, or -1. */
  function LastItemWithKey(items: seq<string>, k: string): (r: int)
    ensures -1 <= r < |items|
    ensures r >= 0 ==> Split(items[r], '=')[0] == k
    ensures forall j | r < j < |items| :: Split(items[j], '=')[0] != k
    decreases |items|
  {
    if |items| == 0 then -1
    else if Split(items[|items| - 1], '=')[0] == k then |items| - 1
    else LastItemWithKey(items[..|items| - 1], k)
  }

  /** A successful parse maps each key to the value of the LAST item with
      that key, and holds no other key. */
  lemma {:induction false} ParseItemsValue(items: seq<string>, k: string)
    requires ParseItems(items).Ok?
    ensures var j := LastItemWithKey(items, k);
      && (k in ParseItems(items).value <==> j >= 0)
      && (j >= 0 ==> IsPair(items[j]) && ParseItems(items).value[k] == Split(items[j], '=')[1])
    decreases |items|
  {
    ParseItemsError(items);
    if |items| > 0 {
      ParseItemsValue(items[..|items| - 1], k);
    }
  }

  /** The selector text for a list of key/value pairs. */
  function Render(pairs: seq<(string, string)>): seq<string> {
    seq(|pairs|, i requires 0 <= i < |pairs| => pairs[i].0 + "=" + pairs[i].1)
  }

  /** The dictionary of a pair list, later pairs replacing earlier ones. */
  function ToMap(pairs: seq<(string, string)>): map<string, string>
    decreases |pairs|
  {
    if |pairs| == 0 then map[]
    else ToMap(pairs[..|pairs| - 1])[pairs[|pairs| - 1].0 := pairs[|pairs| - 1].1]
  }

  predicate Plain(s: string) {
    ',' !in s && '=' !in s
  }

  /** Rendering pairs whose keys and values hold neither `,` nor `=` and
      parsing the result gives back their dictionary. */
  lemma {:induction false} ParseRender(pairs: seq<(string, string)>)
    requires |pairs| >= 1
    requires forall i | 0 <= i < |pairs| :: Plain(pairs[i].0) && Plain(pairs[i].1)
    ensures ParseSelector(Join(Render(pairs), ',')) == Ok(ToMap(pairs))
  {
    var items := Render(pairs);
    forall i | 0 <= i < |items|
      ensures ',' !in items[i]
    {
      assert items[i] == pairs[i].0 + "=" + pairs[i].1;
    }
    SplitJoin(items, ',');
    ParseRenderItems(pairs);
  }

  lemma {:induction false} ParseRenderItems(pairs: seq<(string, string)>)
    requires forall i | 0 <= i < |pairs| :: Plain(pairs[i].0) && Plain(pairs[i].1)
    ensures ParseItems(Render(pairs)) == Ok(ToMap(pairs))
    decreases |pairs|
  {
    if |pairs| > 0 {
      var prefix := pairs[..|pairs| - 1];
      var (k, v) := pairs[|pairs| - 1];
      assert Render(pairs)[..|pairs| - 1] == Render(prefix);
      ParseRenderItems(prefix);
      var item := k + "=" + v;
      assert Render(pairs)[|pairs| - 1] == item;
      assert item == k + ("=" + v);
      SplitAfterPlain(v, "", '=');
      assert v + "" == v;
      assert Split(v, '=') == [v];
      assert ("=" + v)[1..] == v;
      assert Split("=" + v, '=') == ["", v];
      SplitAfterPlain(k, "=" + v, '=');
      assert k + "" == k;
      assert Split(item, '=') == [k, v];
    }
  }

  /** The addressing mode. `SingleNamespace(None)` is what the source does
      when NAMESPACE is unset and NAMESPACE_LABELS is set but empty: it
      passes `namespace=None` to the client library. */
  datatype Mode =
    | OwnNamespace
    | AllNamespaces
    | FanOut(selector: string)
    | SingleNamespace(namespace: Option<string>)

  /** The branch precedence of both loops: both variables unset gives the
      sidecar's own namespace; then ALL; then a non-empty selector; then the
      explicit namespace. */
  function SelectMode(namespace: Option<string>, selector: Option<string>): (m: Mode)
    ensures m.OwnNamespace? <==> namespace.None? && selector.None?
    ensures m.AllNamespaces? <==> namespace == Some("ALL")
    ensures m.FanOut? <==> namespace != Some("ALL") && selector.Some? && selector.value != ""
    ensures m.FanOut? ==> m.selector == selector.value
    ensures m.SingleNamespace? ==> m.namespace == namespace
  {
    if namespace.None? && selector.None? then OwnNamespace
    else if namespace == Some("ALL") then AllNamespaces
    else if selector.Some? && selector.value != "" then FanOut(selector.value)
    else SingleNamespace(namespace)
  }

  /** A non-empty selector overrides an explicit namespace other than ALL. */
  lemma SelectorBeatsNamespace(ns: string, selector: string)
    requires ns != "ALL" && selector != ""
    ensures SelectMode(Some(ns), Some(selector)) == FanOut(selector)
  {
  }

  /** Where the config maps come from. */
  datatype Source =
    | Namespaced(namespace: Option<string>)
    | ClusterWide
    | PerNamespace(matchLabels: map<string, string>)

  /** Why a mode cannot start: a malformed selector (ValueError); in
      `watchForChanges`, `queue = queue.Queue()` makes `queue` local to the
      whole function, so reading `queue.Queue` raises UnboundLocalError; in
      `listConfigmaps`, the fan-out branch never binds `ret`, which the loop
      reads. */
  datatype StartError = SelectorInvalid(error: SelectorError) | QueueUnbound | RetUnbound

  /** The stream `watchForChanges` opens, as written. */
  function WatchSource(mode: Mode, current: string): (r: Result<Source, StartError>)
    ensures r.Err? <==> mode.FanOut?
    ensures mode.FanOut? && ParseSelector(mode.selector).Ok? ==> r == Err(QueueUnbound)
    ensures mode.FanOut? && ParseSelector(mode.selector).Err? ==> r == Err(SelectorInvalid(ParseSelector(mode.selector).error))
    ensures mode.OwnNamespace? ==> r == Ok(Namespaced(Some(current)))
    ensures mode.AllNamespaces? ==> r == Ok(ClusterWide)
    ensures mode.SingleNamespace? ==> r == Ok(Namespaced(mode.namespace))
  {
    match mode
    case OwnNamespace => Ok(Namespaced(Some(current)))
    case AllNamespaces => Ok(ClusterWide)
    case FanOut(selector) =>
      (match ParseSelector(selector)
      case Err(e) => Err(SelectorInvalid(e))
      case Ok(_) => Err(QueueUnbound))
    case SingleNamespace(ns) => Ok(Namespaced(ns))
  }

  /** The listing `listConfigmaps` iterates, as written. */
  function ListSource(mode: Mode, current: string): (r: Result<Source, StartError>)
    ensures r.Err? <==> mode.FanOut?
    ensures mode.FanOut? && ParseSelector(mode.selector).Ok? ==> r == Err(RetUnbound)
    ensures mode.FanOut? && ParseSelector(mode.selector).Err? ==> r == Err(SelectorInvalid(ParseSelector(mode.selector).error))
    ensures !mode.FanOut? ==> r == WatchSource(mode, current)
  {
    match mode
    case FanOut(selector) =>
      (match ParseSelector(selector)
      case Err(e) => Err(SelectorInvalid(e))
      case Ok(_) => Err(RetUnbound))
    case _ => WatchSource(mode, current)
  }

  /** What both branches evidently intend: with a valid selector, follow the
      namespaces its labels select. */
  function IntendedSource(mode: Mode, current: string): (r: Result<Source, StartError>)
    ensures r.Err? <==> mode.FanOut? && ParseSelector(mode.selector).Err?
    ensures r.Ok? && mode.FanOut? ==> r.value == PerNamespace(ParseSelector(mode.selector).value)
    ensures r.Err? ==> r == Err(SelectorInvalid(ParseSelector(mode.selector).error))
    ensures !mode.FanOut? ==> r == WatchSource(mode, current) && r == ListSource(mode, current)
  {
    match mode
    case FanOut(selector) =>
      (match ParseSelector(selector)
      case Err(e) => Err(SelectorInvalid(e))
      case Ok(labels) => Ok(PerNamespace(labels)))
    case _ => WatchSource(mode, current)
  }

  /** As written, fan-out mode never delivers an event: whatever the
      selector, both the watch and the list fail before reaching their loop. */
  lemma FanOutNeverStarts(namespace: Option<string>, selector: string, current: string)
    requires namespace != Some("ALL") && selector != ""
    ensures WatchSource(SelectMode(namespace, Some(selector)), current).Err?
    ensures ListSource(SelectMode(namespace, Some(selector)), current).Err?
  {
  }

  /** The concrete case: NAMESPACE_LABELS="team=a" selects fan-out, and the
      watch fails although the selector is valid; the intended source
      follows the namespaces labelled team=a. */
  lemma FanOutExample(current: string)
    ensures SelectMode(None, Some("team=a")) == FanOut("team=a")
    ensures WatchSource(FanOut("team=a"), current) == Err(QueueUnbound)
    ensures IntendedSource(FanOut("team=a"), current) == Ok(PerNamespace(map["team" := "a"]))
  {
    ParseRender([("team", "a")]);
    assert Join(Render([("team", "a")]), ',') == "team=a";
  }
}
