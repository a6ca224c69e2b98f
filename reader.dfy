/**
 * The archive scan of package reader. The tar stream is a sequence of
 * entries, each a header name and a body; the regex engine and the JSON codec
 * are parameters.
 */
module Reader {
  import opened Wrappers
  import opened GoStrings
  import opened Regex
  import opened Deserializer
  import opened ConfigMapCollection

  /** One member of the tar archive: its header name and its body. */
  datatype Entry = Entry(name: string, body: Bytes)

  /**
   * regexp.MustCompile(pattern).FindString(input): the text of the leftmost
   * match, "" when there is none.
   */
  type Finder = (string, string) -> string

  /**
   * The fixed archive path some groups are stored under instead of their
   * directory: `config/<group>.json`, from which the group can be read back.
   */
  function WellKnownInsightsJson(resourceGroup: string): (r: string)
    ensures HasPrefix(r, "config/") && HasSuffix(r, ".json")
    ensures |r| == |resourceGroup| + 12 && r[7..|r| - 5] == resourceGroup
  {
    "config/" + resourceGroup + ".json"
  }

  /** Distinct groups have distinct well-known paths, so a query stops only on its own file. */
  lemma WellKnownInsightsJsonInjective(group1: string, group2: string)
    requires WellKnownInsightsJson(group1) == WellKnownInsightsJson(group2)
    ensures group1 == group2
  {
    var r := WellKnownInsightsJson(group1);
    assert group1 == r[7..|r| - 5];
  }

  /** The match of the first pattern, in list order, that matches `input`, or "". */
  function FirstMatch(patterns: seq<string>, input: string, find: Finder): string {
    if |patterns| == 0 then ""
    else if find(patterns[0], input) != "" then find(patterns[0], input)
    else FirstMatch(patterns[1..], input, find)
  }

  /**
   * FirstMatch is "" exactly when no pattern matches, and otherwise the match
   * of a pattern all of whose predecessors fail.
   */
  lemma {:induction false} FirstMatchSpec(patterns: seq<string>, input: string, find: Finder)
    ensures FirstMatch(patterns, input, find) == "" <==> forall i :: 0 <= i < |patterns| ==> find(patterns[i], input) == ""
    ensures FirstMatch(patterns, input, find) != "" ==>
      exists i :: 0 <= i < |patterns| && FirstMatch(patterns, input, find) == find(patterns[i], input)
        && (forall j :: 0 <= j < i ==> find(patterns[j], input) == "")
  {
    if |patterns| > 0 && find(patterns[0], input) == "" {
      FirstMatchSpec(patterns[1..], input, find);
      assert forall i :: 1 <= i < |patterns| ==> patterns[i] == patterns[1..][i - 1];
      if FirstMatch(patterns, input, find) != "" {
        var i :| 0 <= i < |patterns[1..]| && FirstMatch(patterns, input, find) == find(patterns[1..][i], input)
          && (forall j :: 0 <= j < i ==> find(patterns[1..][j], input) == "");
        assert FirstMatch(patterns, input, find) == find(patterns[i + 1], input);
      }
    }
  }

  /** resourceFilename: tries the patterns in order and stops at the first match. */
  method ResourceFilename(regs: seq<string>, input: string, find: Finder) returns (r: string)
    ensures r == FirstMatch(regs, input, find)
  {
    var k := 0;
    while k < |regs|
      invariant 0 <= k <= |regs|
      invariant FirstMatch(regs, input, find) == FirstMatch(regs[k..], input, find)
    {
      var found := find(regs[k], input);
      if found != "" {
        return found;
      }
      assert regs[k..][1..] == regs[k + 1..];
      k := k + 1;
    }
    return "";
  }

  /**
   * containerAndVersionFromFilename: the base name of the path without its
   * ".log" extension, cut at '_' into the container name and the version
   * ("current" or "previous"); no '_' gives an empty version.
   */
  function ContainerAndVersion(filename: string): (r: (string, string))
    ensures
      var base := PathBase(TrimSuffix(filename, ".log"));
      && '_' !in r.0 && '_' !in r.1
      && ('_' !in base ==> r == (base, ""))
      && ('_' in base ==>
            var i := IndexOf(base, '_');
            && r.0 == base[..i]
            && HasPrefix(base[i + 1..], r.1)
            && (|base| == i + 1 + |r.1| || base[i + 1 + |r.1|] == '_'))
  {
    var base := PathBase(TrimSuffix(filename, ".log"));
    var parts := Split(base, '_');
    if '_' in base then
      SplitFirstField(base, '_', IndexOf(base, '_'));
      SplitSecondField(base, '_', IndexOf(base, '_'), parts[1]);
      (parts[0], parts[1])
    else
      SplitWithoutSeparator(base, '_');
      (parts[0], "")
  }

  lemma TrimmedSuffix(s: string, suffix: string)
    ensures TrimSuffix(s + suffix, suffix) == s
  {
    var r := TrimSuffix(s + suffix, suffix);
    assert HasSuffix(s + suffix, suffix) by {
      assert (s + suffix)[|s|..] == suffix;
    }
    assert r == (r + suffix)[..|r|];
  }

  /** The first two '_'-separated fields of `base`, the second empty when there is only one. */
  function LogNameFields(base: string): (string, string) {
    var parts := Split(base, '_');
    (parts[0], if |parts| > 1 then parts[1] else "")
  }

  /** The result of containerAndVersionFromFilename in terms of the fields of the base name. */
  lemma ContainerAndVersionOfBase(filename: string, base: string)
    requires PathBase(TrimSuffix(filename, ".log")) == base
    ensures ContainerAndVersion(filename) == LogNameFields(base)
  {
    SplitCount(base, '_');
    if '_' !in base {
      SplitWithoutSeparator(base, '_');
    }
  }

  /** A bare base name or one under a directory gives the base name itself, before the cut at '_'. */
  lemma LogNameBase(dir: string, name: string)
    requires name != "" && '/' !in name
    ensures ContainerAndVersion(name + ".log") == LogNameFields(name)
    ensures ContainerAndVersion(dir + "/" + name + ".log") == LogNameFields(name)
  {
    TrimmedSuffix(name, ".log");
    ContainerAndVersionOfBase(name + ".log", name);
    TrimmedSuffix(dir + "/" + name, ".log");
    BaseOfJoined(dir, name);
    ContainerAndVersionOfBase(dir + "/" + name + ".log", name);
  }

  /** A log file named `<container>_<version>.log`, bare or under a directory, decomposes into its two parts. */
  lemma ContainerAndVersionOfLogName(dir: string, container: string, version: string)
    requires container != "" && '/' !in container && '_' !in container
    requires '/' !in version && '_' !in version
    ensures ContainerAndVersion(container + "_" + version + ".log") == (container, version)
    ensures ContainerAndVersion(dir + "/" + container + "_" + version + ".log") == (container, version)
  {
    var name := container + "_" + version;
    assert dir + "/" + container + "_" + version + ".log" == dir + "/" + name + ".log";
    SplitJoin([container, version], '_');
    assert Join([container, version], '_') == name;
    assert LogNameFields(name) == (container, version);
    LogNameBase(dir, name);
  }

  /** A log file named `<container>.log`, bare or under a directory, has no version. */
  lemma ContainerOfLogName(dir: string, container: string)
    requires container != "" && '/' !in container && '_' !in container
    ensures ContainerAndVersion(container + ".log") == (container, "")
    ensures ContainerAndVersion(dir + "/" + container + ".log") == (container, "")
  {
    SplitWithoutSeparator(container, '_');
    LogNameBase(dir, container);
  }

  /** The file names the tests pin. */
  lemma ContainerAndVersionExamples()
    ensures ContainerAndVersion("ingress-operator" + "_" + "current" + ".log") == ("ingress-operator", "current")
    ensures ContainerAndVersion("ingress-operator" + ".log") == ("ingress-operator", "")
  {
    ContainerAndVersionOfLogName("", "ingress-operator", "current");
    ContainerOfLogName("", "ingress-operator");
  }

  /**
   * configMapFromFilename: an exploded ConfigMap file is
   * `<dir>/<dir>/<namespace>/<name>/<key>`; one trailing '/' is dropped first,
   * and any other number of separators is an unknown path.
   */
  function ConfigMapFromFilename(tarFilePath: string): (r: Result<(string, string, string), Error>)
    ensures r.Failure? ==> r.error == UnknownResourcePath
    ensures r.Success? ==> '/' !in r.value.0 && '/' !in r.value.1 && '/' !in r.value.2
  {
    var parts := Split(TrimSuffix(tarFilePath, "/"), '/');
    if |parts| != 5 then Failure(UnknownResourcePath) else Success((parts[2], parts[3], parts[4]))
  }

  /** A path is accepted exactly when, after dropping one trailing '/', it has four separators. */
  lemma ConfigMapPathShape(tarFilePath: string)
    ensures ConfigMapFromFilename(tarFilePath).Success? <==> multiset(TrimSuffix(tarFilePath, "/"))['/'] == 4
  {
    SplitCount(TrimSuffix(tarFilePath, "/"), '/');
  }

  /**
   * The five segments of a ConfigMap path come back as (namespace, name, key);
   * the first two are not inspected and a trailing '/' is tolerated. An empty
   * key is rejected when the path ends in the ConfigMap's directory, and
   * accepted when a further '/' follows (`.../name//` gives the key "").
   */
  lemma ConfigMapPathRoundTrip(dir0: string, dir1: string, namespace: string, name: string, key: string)
    requires '/' !in dir0 && '/' !in dir1 && '/' !in namespace && '/' !in name && '/' !in key
    ensures ConfigMapFromFilename(Join([dir0, dir1, namespace, name, key], '/') + "/") == Success((namespace, name, key))
    ensures key != "" ==> ConfigMapFromFilename(Join([dir0, dir1, namespace, name, key], '/')) == Success((namespace, name, key))
    ensures key == "" ==> ConfigMapFromFilename(Join([dir0, dir1, namespace, name, key], '/')) == Failure(UnknownResourcePath)
  {
    var parts := [dir0, dir1, namespace, name, key];
    FieldsOfJoined(parts, Join(parts, '/') + "/");
    if key == "" {
      EmptyKeyRejected(dir0, dir1, namespace, name);
    } else {
      UntrimmedFields(parts);
    }
  }

  /** A path that ends in the ConfigMap's directory has four fields. */
  lemma EmptyKeyRejected(dir0: string, dir1: string, namespace: string, name: string)
    requires '/' !in dir0 && '/' !in dir1 && '/' !in namespace && '/' !in name
    ensures ConfigMapFromFilename(Join([dir0, dir1, namespace, name, ""], '/')) == Failure(UnknownResourcePath)
  {
    var four := [dir0, dir1, namespace, name];
    assert [dir0, dir1, namespace, name, ""] == four + [""];
    JoinSnoc(four, '/', "");
    assert Join(four + [""], '/') == Join(four, '/') + "/";
    FieldsOfJoined(four, Join(four + [""], '/'));
  }

  /** The fields of a joined path, with one trailing '/' or none. */
  lemma FieldsOfJoined(parts: seq<string>, tarFilePath: string)
    requires |parts| >= 1 && forall i :: 0 <= i < |parts| ==> '/' !in parts[i]
    requires tarFilePath == Join(parts, '/') + "/"
    ensures |parts| == 5 ==> ConfigMapFromFilename(tarFilePath) == Success((parts[2], parts[3], parts[4]))
    ensures |parts| != 5 ==> ConfigMapFromFilename(tarFilePath) == Failure(UnknownResourcePath)
  {
    SplitJoin(parts, '/');
    TrimmedSuffix(Join(parts, '/'), "/");
    ConfigMapFromFields(tarFilePath, parts);
  }

  /** A joined path whose last field is not empty is taken as it is. */
  lemma UntrimmedFields(parts: seq<string>)
    requires |parts| == 5 && forall i :: 0 <= i < |parts| ==> '/' !in parts[i]
    requires parts[4] != ""
    ensures ConfigMapFromFilename(Join(parts, '/')) == Success((parts[2], parts[3], parts[4]))
  {
    var path := Join(parts, '/');
    JoinSnoc(parts[..4], '/', parts[4]);
    assert parts[..4] + [parts[4]] == parts;
    assert path[|path| - 1] == parts[4][|parts[4]| - 1];
    assert !HasSuffix(path, "/");
    SplitJoin(parts, '/');
    ConfigMapFromFields(path, parts);
  }

  /** configMapFromFilename in terms of the fields of the trimmed path. */
  lemma ConfigMapFromFields(tarFilePath: string, parts: seq<string>)
    requires Split(TrimSuffix(tarFilePath, "/"), '/') == parts
    ensures |parts| == 5 ==> ConfigMapFromFilename(tarFilePath) == Success((parts[2], parts[3], parts[4]))
    ensures |parts| != 5 ==> ConfigMapFromFilename(tarFilePath) == Failure(UnknownResourcePath)
  {
  }

  /** raw.String(): the bytes of a body, one character per byte. */
  function BytesToString(b: Bytes): (s: string)
    ensures |s| == |b| && forall i :: 0 <= i < |b| ==> s[i] as int == b[i]
  {
    seq(|b|, i requires 0 <= i < |b| => b[i] as char)
  }

  /** What one readResources call works with. */
  datatype Scanner = Scanner(resourceGroup: string, patterns: seq<string>, find: Finder, codec: Codec)

  /** The two patterns readResources tries: the config tree, then the conditional tree. */
  function ResourcePatterns(resourceGroup: string, resourceName: string, namespace: string): seq<string> {
    [ResourcePart(ConfigPrefix(resourceGroup, namespace), resourceName),
     ResourcePart(ConditionalPrefix(resourceGroup, namespace), resourceName)]
  }

  /**
   * The state of the scan after a prefix of the archive: still scanning with
   * the direct documents and the ConfigMap pieces so far, or stopped with the
   * final outcome (the well-known file, or a fatal error).
   */
  datatype ScanState =
    | Scanning(direct: seq<Resource>, configMaps: Collector)
    | Stopped(outcome: Result<seq<Resource>, Error>)

  function WellKnown(sc: Scanner, e: Entry): bool {
    e.name == WellKnownInsightsJson(sc.resourceGroup)
  }

  function Matches(sc: Scanner, e: Entry): bool {
    FirstMatch(sc.patterns, e.name, sc.find) != ""
  }

  /** One iteration of readResources' loop, in the order the loop tests things. */
  function Step(sc: Scanner, st: ScanState, e: Entry): ScanState {
    match st
    case Stopped(_) => st
    case Scanning(direct, configMaps) =>
      if WellKnown(sc, e) then
        match Normalize(sc.codec, e.body)
        case Success(document) => Stopped(Success(direct + [Unstructured(document)]))
        case Failure(err) => Stopped(Failure(err))
      else if !Matches(sc, e) then st
      else
        match Normalize(sc.codec, e.body)
        case Success(document) => Scanning(direct + [Unstructured(document)], configMaps)
        case Failure(_) =>
          match ConfigMapFromFilename(e.name)
          case Success((namespace, name, key)) =>
            Scanning(direct, Upserted(configMaps, namespace, name, key, BytesToString(e.body)))
          case Failure(_) => st
  }

  /** The loop run over `entries`, in archive order. */
  function Scan(sc: Scanner, entries: seq<Entry>): ScanState {
    if |entries| == 0 then Scanning([], map[])
    else Step(sc, Scan(sc, entries[..|entries| - 1]), entries[|entries| - 1])
  }

  lemma ScanSnoc(sc: Scanner, entries: seq<Entry>, e: Entry)
    ensures Scan(sc, entries + [e]) == Step(sc, Scan(sc, entries), e)
  {
    assert (entries + [e])[..|entries|] == entries;
  }

  /**
   * readResources: documents of the group found in the archive. When the
   * well-known file comes first, the result is the direct documents so far
   * and that one; a fatal decode of it is the error; otherwise the direct
   * documents in archive order followed by one document per ConfigMap collected.
   */
  method ReadResources(entries: seq<Entry>, resourceGroup: string, resourceName: string, namespace: string,
                       find: Finder, codec: Codec)
    returns (r: Result<seq<Resource>, Error>)
    ensures
      var st := Scan(Scanner(resourceGroup, ResourcePatterns(resourceGroup, resourceName, namespace), find, codec), entries);
      && (st.Stopped? ==> r == st.outcome)
      && (st.Scanning? ==>
            && r.Success?
            && |st.direct| <= |r.value|
            && r.value[..|st.direct|] == st.direct
            && IsFlattening(st.configMaps, r.value[|st.direct|..]))
  {
    var configRegex := ConfigResourceRegex(resourceGroup, resourceName, namespace);
    var conditionalRegex := ConditionalResourceRegex(resourceGroup, resourceName, namespace);
    var regs := [configRegex, conditionalRegex];
    var sc := Scanner(resourceGroup, regs, find, codec);
    var result: seq<Resource> := [];
    var configMaps := new ConfigMapData();
    var k := 0;
    while k < |entries|
      invariant 0 <= k <= |entries|
      invariant Scan(sc, entries[..k]) == Scanning(result, configMaps.data)
    {
      ScanAt(sc, entries, k);
      var done, outcome;
      done, outcome, result := ReadEntry(sc, entries[k], result, configMaps);
      if done {
        StoppedAt(sc, entries, k);
        return outcome;
      }
      k := k + 1;
    }
    assert entries[..k] == entries;
    var flattened := configMaps.Flatten();
    r := Success(result + flattened);
    assert r.value[..|result|] == result && r.value[|result|..] == flattened;
  }

  /**
   * The body of readResources' loop for one entry: the well-known file ends
   * the read with the documents so far and its own (or with its decode
   * error); a matched entry's document is kept, one that does not decode is
   * tried as a piece of an exploded ConfigMap, and anything else is skipped.
   */
  method ReadEntry(sc: Scanner, entry: Entry, result: seq<Resource>, configMaps: ConfigMapData)
    returns (done: bool, outcome: Result<seq<Resource>, Error>, result': seq<Resource>)
    modifies configMaps
    ensures done ==> Step(sc, Scanning(result, old(configMaps.data)), entry) == Stopped(outcome)
    ensures done ==> configMaps.data == old(configMaps.data)
    ensures !done ==> Step(sc, Scanning(result, old(configMaps.data)), entry) == Scanning(result', configMaps.data)
  {
    done, outcome, result' := false, Success(result), result;
    if entry.name == WellKnownInsightsJson(sc.resourceGroup) {
      var document := JsonToUnstructed(sc.codec, entry.body);
      done := true;
      if document.Failure? {
        outcome := Failure(document.error);
      } else {
        outcome := Success(result + [Unstructured(document.value)]);
      }
      return;
    }
    var resourceFile := ResourceFilename(sc.patterns, entry.name, sc.find);
    if resourceFile == "" {
      return;
    }
    var document := JsonToUnstructed(sc.codec, entry.body);
    if document.Failure? {
      var piece := ConfigMapFromFilename(entry.name);
      if piece.Success? {
        var (ns, name, key) := piece.value;
        configMaps.Upsert(ns, name, key, BytesToString(entry.body));
      }
    } else {
      result' := result + [Unstructured(document.value)];
    }
  }

  /** The scan one entry further is one more step. */
  lemma ScanAt(sc: Scanner, entries: seq<Entry>, k: nat)
    requires k < |entries|
    ensures Scan(sc, entries[..k + 1]) == Step(sc, Scan(sc, entries[..k]), entries[k])
  {
    assert entries[..k + 1][..k] == entries[..k];
  }

  /** A scan stopped after entry k is the scan of the whole archive. */
  lemma StoppedAt(sc: Scanner, entries: seq<Entry>, k: nat)
    requires k < |entries| && Scan(sc, entries[..k + 1]).Stopped?
    ensures Scan(sc, entries) == Scan(sc, entries[..k + 1])
  {
    StoppedStays(sc, entries[..k + 1], entries[k + 1..]);
    assert entries[..k + 1] + entries[k + 1..] == entries;
  }

  /** Once stopped, the scan reads no further entry. */
  lemma {:induction false} StoppedStays(sc: Scanner, entries: seq<Entry>, more: seq<Entry>)
    requires Scan(sc, entries).Stopped?
    ensures Scan(sc, entries + more) == Scan(sc, entries)
    decreases |more|
  {
    if |more| == 0 {
      assert entries + more == entries;
    } else {
      var init := more[..|more| - 1];
      StoppedStays(sc, entries, init);
      assert entries + more == (entries + init) + [more[|more| - 1]];
      ScanSnoc(sc, entries + init, more[|more| - 1]);
    }
  }

  /**
   * The well-known file ends the scan: its document is appended to the direct
   * documents read so far, the ConfigMap pieces are dropped, and nothing after
   * it is read; a payload that does not decode is fatal.
   */
  lemma WellKnownStops(sc: Scanner, entries: seq<Entry>, k: nat)
    requires k < |entries| && Scan(sc, entries[..k]).Scanning? && WellKnown(sc, entries[k])
    ensures Scan(sc, entries) == Scan(sc, entries[..k + 1])
    ensures Normalize(sc.codec, entries[k].body).Success? ==>
      Scan(sc, entries) == Stopped(Success(Scan(sc, entries[..k]).direct
                                           + [Unstructured(Normalize(sc.codec, entries[k].body).value)]))
    ensures Normalize(sc.codec, entries[k].body).Failure? ==>
      Scan(sc, entries) == Stopped(Failure(Normalize(sc.codec, entries[k].body).error))
  {
    ScanAt(sc, entries, k);
    StoppedAt(sc, entries, k);
  }

  /** Entries that are neither the well-known file nor matched by a pattern leave the scan unchanged. */
  lemma {:induction false} UnmatchedSkipped(sc: Scanner, entries: seq<Entry>, more: seq<Entry>)
    requires forall i :: 0 <= i < |more| ==> !WellKnown(sc, more[i]) && !Matches(sc, more[i])
    ensures Scan(sc, entries + more) == Scan(sc, entries)
    decreases |more|
  {
    if |more| > 0 {
      var init := more[..|more| - 1];
      UnmatchedSkipped(sc, entries, init);
      assert entries + more == (entries + init) + [more[|more| - 1]];
      ScanSnoc(sc, entries + init, more[|more| - 1]);
    } else {
      assert entries + more == entries;
    }
  }

  /** The document an entry contributes directly: matched and decoded, or nothing. */
  function DirectOf(sc: Scanner, e: Entry): seq<Resource> {
    if Matches(sc, e) && Normalize(sc.codec, e.body).Success?
    then [Unstructured(Normalize(sc.codec, e.body).value)] else []
  }

  /** The direct documents of the entries, front to back. */
  function DirectDocuments(sc: Scanner, entries: seq<Entry>): seq<Resource> {
    if |entries| == 0 then [] else DirectOf(sc, entries[0]) + DirectDocuments(sc, entries[1..])
  }

  /** Direct documents keep archive order: those of a concatenation are those of each part in turn. */
  lemma {:induction false} DirectDocumentsAppend(sc: Scanner, a: seq<Entry>, b: seq<Entry>)
    ensures DirectDocuments(sc, a + b) == DirectDocuments(sc, a) + DirectDocuments(sc, b)
    decreases |a|
  {
    if |a| == 0 {
      assert a + b == b;
    } else {
      assert (a + b)[1..] == a[1..] + b;
      DirectDocumentsAppend(sc, a[1..], b);
    }
  }

  /**
   * While scanning, no well-known file has been met, and the direct
   * documents are exactly those of the entries read, in archive order.
   */
  lemma {:induction false} ScanningDirects(sc: Scanner, entries: seq<Entry>)
    requires Scan(sc, entries).Scanning?
    ensures Scan(sc, entries).direct == DirectDocuments(sc, entries)
    decreases |entries|
  {
    if |entries| > 0 {
      var init := entries[..|entries| - 1];
      var e := entries[|entries| - 1];
      var before := Scan(sc, init);
      assert before.Scanning?;
      ScanningDirects(sc, init);
      StepDirects(sc, before.direct, before.configMaps, e);
      assert entries == init + [e];
      DirectDocumentsAppend(sc, init, [e]);
      assert DirectDocuments(sc, [e]) == DirectOf(sc, e);
    }
  }

  /** While scanning, no entry read so far is the well-known file. */
  lemma {:induction false} ScanningSawNoWellKnown(sc: Scanner, entries: seq<Entry>)
    requires Scan(sc, entries).Scanning?
    ensures forall i :: 0 <= i < |entries| ==> !WellKnown(sc, entries[i])
    decreases |entries|
  {
    if |entries| > 0 {
      var init := entries[..|entries| - 1];
      var e := entries[|entries| - 1];
      var before := Scan(sc, init);
      assert before.Scanning?;
      ScanningSawNoWellKnown(sc, init);
      StepDirects(sc, before.direct, before.configMaps, e);
      forall i | 0 <= i < |init| ensures entries[i] == init[i] {
      }
    }
  }

  /** A step that keeps scanning was not on the well-known file and adds the entry's direct document. */
  lemma StepDirects(sc: Scanner, direct: seq<Resource>, configMaps: Collector, e: Entry)
    requires Step(sc, Scanning(direct, configMaps), e).Scanning?
    ensures !WellKnown(sc, e)
    ensures Step(sc, Scanning(direct, configMaps), e).direct == direct + DirectOf(sc, e)
  {
  }

  /** An entry that is matched, does not decode and has a ConfigMap path is a piece of that ConfigMap. */
  predicate IsPiece(sc: Scanner, e: Entry, namespace: string, name: string, key: string) {
    && Matches(sc, e)
    && Normalize(sc.codec, e.body).Failure?
    && ConfigMapFromFilename(e.name) == Success((namespace, name, key))
  }

  /** The body of an entry that is a piece for (namespace, name, key), or nothing. */
  function PieceValue(sc: Scanner, e: Entry, namespace: string, name: string, key: string): Option<string> {
    if IsPiece(sc, e, namespace, name, key) then Some(BytesToString(e.body)) else None
  }

  /** PieceValue over the entries, in archive order. */
  function PieceValues(sc: Scanner, entries: seq<Entry>, namespace: string, name: string, key: string): (vs: seq<Option<string>>)
    ensures |vs| == |entries|
  {
    if |entries| == 0 then []
    else PieceValues(sc, entries[..|entries| - 1], namespace, name, key)
         + [PieceValue(sc, entries[|entries| - 1], namespace, name, key)]
  }

  /** The last present value of a sequence, if any. */
  function LastPresent<T>(xs: seq<Option<T>>): Option<T> {
    if |xs| == 0 then None
    else if xs[|xs| - 1].Some? then xs[|xs| - 1]
    else LastPresent(xs[..|xs| - 1])
  }

  /**
   * LastPresent finds a value exactly when one is present, and it is a
   * present value followed by none.
   */
  lemma {:induction false} LastPresentSpec<T>(xs: seq<Option<T>>)
    ensures LastPresent(xs).Some? <==> exists i :: 0 <= i < |xs| && xs[i].Some?
    ensures LastPresent(xs).Some? ==>
      exists i :: 0 <= i < |xs| && xs[i] == LastPresent(xs) && (forall j :: i < j < |xs| ==> xs[j].None?)
    decreases |xs|
  {
    if |xs| > 0 && xs[|xs| - 1].None? {
      var init := xs[..|xs| - 1];
      LastPresentSpec(init);
      forall i | 0 <= i < |init| ensures xs[i] == init[i] {
      }
      if LastPresent(init).Some? {
        var i :| 0 <= i < |init| && init[i] == LastPresent(init) && (forall j :: i < j < |init| ==> init[j].None?);
        assert xs[i] == LastPresent(xs);
      }
    }
  }

  /**
   * While scanning, every key of the collected ConfigMaps holds the body of
   * the last entry read that is a piece for it, and a key is held only when
   * such an entry was read.
   */
  lemma {:induction false} CollectedPieces(sc: Scanner, entries: seq<Entry>, namespace: string, name: string, key: string)
    requires Scan(sc, entries).Scanning?
    ensures Lookup(Scan(sc, entries).configMaps, namespace, name, key) == LastPresent(PieceValues(sc, entries, namespace, name, key))
    decreases |entries|
  {
    if |entries| > 0 {
      var init := entries[..|entries| - 1];
      var e := entries[|entries| - 1];
      var before := Scan(sc, init);
      assert before.Scanning?;
      CollectedPieces(sc, init, namespace, name, key);
      StepLookup(sc, before.direct, before.configMaps, e, namespace, name, key);
      var vs := PieceValues(sc, entries, namespace, name, key);
      assert vs[..|vs| - 1] == PieceValues(sc, init, namespace, name, key);
    }
  }

  /** One step changes the value of a key only when the entry is a piece for it, and then to its body. */
  lemma StepLookup(sc: Scanner, direct: seq<Resource>, configMaps: Collector, e: Entry,
                   namespace: string, name: string, key: string)
    requires Step(sc, Scanning(direct, configMaps), e).Scanning?
    ensures Lookup(Step(sc, Scanning(direct, configMaps), e).configMaps, namespace, name, key)
         == if IsPiece(sc, e, namespace, name, key) then Some(BytesToString(e.body)) else Lookup(configMaps, namespace, name, key)
  {
    if !WellKnown(sc, e) && Matches(sc, e) && Normalize(sc.codec, e.body).Failure? && ConfigMapFromFilename(e.name).Success? {
      var (ns, n, k) := ConfigMapFromFilename(e.name).value;
      UpsertedSpec(configMaps, ns, n, k, BytesToString(e.body));
    }
  }

  /** What readLogs leaves behind: the headers read, the entry found and the stream positioned at its body. */
  datatype LogStream = LogStream(consumed: nat, matched: Option<string>, body: Bytes, defaultedContainer: Option<string>)

  /**
   * readLogs: reads headers until the first one the log pattern matches and
   * returns the stream at that entry's body; with no container given, the
   * container is defaulted from the file name. Without a match the whole
   * archive is read and the stream is empty.
   */
  method ReadLogs(entries: seq<Entry>, resourceGroup: string, resourceName: string, namespace: string,
                  containerName: string, previous: bool, find: Finder)
    returns (r: LogStream)
    ensures r.consumed <= |entries|
    ensures forall k :: 0 <= k < |entries| && k + 1 < r.consumed ==>
      find(LogPart(resourceName, containerName, previous), entries[k].name) == ""
    ensures r.matched.None? ==>
      && r.consumed == |entries| && r.body == []
      && forall k :: 0 <= k < |entries| ==> find(LogPart(resourceName, containerName, previous), entries[k].name) == ""
    ensures r.matched.Some? ==>
      && 0 < r.consumed
      && r.matched.value == find(LogPart(resourceName, containerName, previous), entries[r.consumed - 1].name)
      && r.matched.value != ""
      && r.body == entries[r.consumed - 1].body
    ensures r.defaultedContainer ==
      if r.matched.Some? && containerName == "" then Some(ContainerAndVersion(r.matched.value).0) else None
  {
    var pattern := LogPart(resourceName, containerName, previous);
    var k := 0;
    while k < |entries|
      invariant 0 <= k <= |entries|
      invariant forall j :: 0 <= j < k ==> find(pattern, entries[j].name) == ""
    {
      var resourceFile := ResourceFilename([pattern], entries[k].name, find);
      SinglePattern(pattern, entries[k].name, find);
      if resourceFile != "" {
        var defaulted := None;
        if containerName == "" {
          var (container, _) := ContainerAndVersion(resourceFile);
          defaulted := Some(container);
        }
        return LogStream(k + 1, Some(resourceFile), entries[k].body, defaulted);
      }
      k := k + 1;
    }
    return LogStream(|entries|, None, [], None);
  }

  /** With one pattern, the first match is that pattern's match. */
  lemma SinglePattern(pattern: string, input: string, find: Finder)
    ensures FirstMatch([pattern], input, find) == find(pattern, input)
  {
  }
}
