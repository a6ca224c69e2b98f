# in2un archive reader, modelled in Dafny

in2un reads an Insights archive: a gzip-compressed tar file that a cluster collector writes once. Each member's path says which record it holds: its type, namespace and name, and for ConfigMaps also the key. A query is a type, a name and a namespace. The reader turns a query into path patterns, makes one forward pass over the tar entries, and returns the documents whose paths match. Along the way it repairs documents whose `kind`/`apiVersion` were stripped. It also regroups ConfigMaps that the archive stores exploded, one file per key.

The model has these modules:

- `GoStrings`: the small part of Go's `strings` and `path` packages that the core uses. It covers `HasPrefix`, `HasSuffix`, `TrimSuffix`, `Index`, `Split`, `Join` and `path.Base`, with their laws (for example `Split(Join(p)) == p`).
- `Helpers`: `Namespaced` and `Plural` from package helpers. Their bodies are not part of this model. Each is a stated assumption that agrees with every example the package's tests pin.
- `Cmd`: `processArgs` and `Unalias` of the `get` command.
- `Regex`: the pattern builders.
  - `ConfigRegex` and `ConditionalRegex` write their expanded namespace back into the receiver, so each is a class whose `GetPart` has `modifies this`.
  - `ResourceRegex.getPart` and `LogRegex.getPart` only concatenate, so each is a function on the text its base returns.
- `Deserializer`: `insertTypeMeta` (a method with the repair loop over `ToBeFixedTypeMetaFields`) and `JsonToUnstructed`, over a JSON value datatype.
  - The JSON codec is a parameter: a `Codec` holding `json.Unmarshal` into a map, `json.Marshal`, and `Unstructured.UnmarshalJSON`.
- `ConfigMapCollection`: `ConfigMapData`, the three-level accumulator namespace → name → key → value. It is a class with `Upsert` and `Flatten`.
- `Reader`: the archive scan.
  - The tar stream is a sequence of `Entry(name, body)`. The regex engine is a parameter `find(pattern, input)` that returns the leftmost match, or `""` (as `FindString` does).
  - `readResources` is a method whose loop keeps one invariant: the state so far equals `Scan` (a left fold of `Step`) over the entries read. `Step` follows the loop's tests in the same order:
    1. the well-known path;
    2. first-match classification;
    3. decode, with a ConfigMap piece as the fallback;
    4. skip.
  - Lemmas then state what the fold means:
    - once stopped, the scan stays stopped;
    - unmatched entries change nothing;
    - the direct documents are those of the matched, decodable entries, in archive order;
    - each collected ConfigMap key holds the body of the last piece read for it.
  - `readLogs` is a method that stops at the first matching header. Without a pod name the log pattern is `""` (`LogPart`'s contract), and the empty pattern's leftmost match is always the empty text, so `readLogs` then reads the whole archive and finds nothing.

Points where the model follows the code, including where the code and its tests disagree:

- **Well-known path.** When the type's well-known path `config/<type>.json` is found, `readResources` returns the documents collected before it, followed by that one document, and drops the ConfigMap pieces collected so far (`reader.go:95-105`).
- **Log pattern.** The log pattern has no scheme prefix. `LogRegex.base` is the zero `Regex`, whose `getPart` is `""` (`regex.go:39,143,159`). The `BaseRegex` literals at `reader.go:79-80,129` do not match `regex.go`. The builders are composed as the tests compose them: a `ResourceRegex` over a fresh `ConfigRegex` or `ConditionalRegex` for the same query.
- **Plural.** The assumed rule is: a name ending in `ss` gets `es?`; otherwise one trailing `s` is dropped and `s?` is added. It gives the three fragments `helpers_test.go:66-79` pins: `pods?` for `pod` and `pods`, and `storageclasses?` for `storageclass`.
- **Stale tests.**
  - `configmap_collection_test.go:167` binds the results of `configMapFromFilename` as `name, namespace, key`, but the code returns `(namespace, name, key)`. The model follows the code.
  - The three-argument `insertTypeMeta` with overrides exists only in `deserializer_test.go`. The code takes the payload alone.
- **The cmd `Unalias`.** The `Unalias` of the `get` command (`cmd/helpers.go`) knows five short names. The `pv` and `pvc` cases in `pkg/helpers/helpers_test.go` belong to a different function.

## Model

| member | source | states |
|---|---|---|
| Helpers.Namespaced | pkg/helpers/helpers_test.go:5-57 | (assumed rule) false exactly on the six cluster-scoped types the test pins: `machineconfig`, `machineconfigpool`, `clusteroperator`, `node`, `storageclass`, `hostsubnet` |
| Helpers.Plural | pkg/helpers/helpers_test.go:59-91 | (assumed body) the fragment always ends in `s?`; it gives the three pinned fragments (HelperExamples) |
| Helpers.HelperExamples | pkg/helpers/helpers_test.go:5-91 | the six cluster-scoped types are not namespaced, `pod` is; `Plural` gives `pods?`, `storageclasses?`, `pods?` for `pod`, `storageclass`, `pods` |
| Helpers.PluralOfPlural | pkg/helpers/helpers_test.go:75-79 | under the assumed rule, an already plural input gives the same fragment as its singular |
| Cmd.Unalias | cmd/helpers.go:44-57 | the five short names map to their canonical names; every other string is returned unchanged |
| Cmd.UnaliasIdempotent | cmd/helpers.go:46-56 | unaliasing twice equals unaliasing once (no canonical name is a short name) |
| Cmd.ProcessArgs | cmd/helpers.go:28-42 | one argument with '/': unaliased text before the first '/', and as name the '/'-free text up to the next '/' or the end; one argument without '/': empty name; two or more: `args[1]` is the name, later ones ignored; the group is unaliased, the name never; needs at least one argument |
| Cmd.TypeAndName | cmd/helpers.go:30-33 | the first field is the text before the first '/', the second runs from there to the next '/' or the end |
| Cmd.ProcessArgsOfPath | cmd/helpers.go:30-41 | `type/name` with '/'-free parts gives back exactly (Unalias(type), name) |
| Cmd.ProcessArgsExamples | cmd/helpers_test.go:28-45 | `pod`, `pod/name` and `pod name` give `("pod", "")`, `("pod", "name")`, `("pod", "name")` |
| Regex.ExpandNamespace | pkg/reader/regex.go:70-72 | `_all_` becomes the name wildcard, any other namespace is kept, and the result is never `_all_` |
| Regex.GroupSegment | pkg/reader/regex.go:63-66 | group `all` gives the name wildcard, any other group its plural fragment |
| Regex.ConfigNamespaceAfter | pkg/reader/regex.go:68-75 | the namespace is expanded only for a namespaced type with a non-empty namespace, otherwise left as it was |
| Regex.ConfigPrefix | pkg/reader/regex.go:62-78 | starts with `^config(/storage)?/` + type segment + `/` and ends in `/`; a namespace segment follows exactly when the type is namespaced and a namespace is given |
| Regex.ConditionalPrefix | pkg/reader/regex.go:101-108 | `^conditional/namespaces/` + expanded namespace + `/` + plural + `/`, the namespace segment present even when empty, no `all` handling |
| Regex.ResourcePart | pkg/reader/regex.go:127-137 | starts with the base and ends in `$`; base + name + the named-file tail with a name, base + the any-name tail without |
| Regex.LogPart | pkg/reader/regex.go:158-177 | empty exactly when no resource name is given; otherwise `logs/<name>/` + container or wildcard + `_previous` or `_current` + `.log`, with no scheme prefix |
| Regex.ClusterScopedIgnoresNamespace | pkg/reader/regex.go:67-75 | a cluster-scoped type gets the same prefix, with no namespace segment, whatever the namespace |
| Regex.AllNamespacesIsWildcard | pkg/reader/regex.go:70-73 | querying `_all_` builds the same prefixes as querying the wildcard itself |
| Regex.PrefixStable | pkg/reader/regex.go:62-108 | the namespace a builder leaves behind yields the same prefix again, so a second getPart returns what the first did |
| Regex.ConfigRegex.constructor | pkg/reader/regex.go:47-60 | the builder holds the query's group, name and namespace |
| Regex.ConfigRegex.GetPart | pkg/reader/regex.go:62-78 | returns the primary prefix of the old namespace, stores the expanded namespace only when a segment is added, and afterwards the stored state gives the same prefix |
| Regex.ConditionalRegex.constructor | pkg/reader/regex.go:86-99 | the builder holds the query's group, name and namespace |
| Regex.ConditionalRegex.GetPart | pkg/reader/regex.go:101-108 | returns the conditional prefix of the old namespace, stores the expanded namespace, and afterwards the stored state gives the same prefix |
| Regex.ConfigResourceRegex | pkg/reader/regex.go:116-137 | a ResourceRegex over a fresh ConfigRegex: the resource suffix over the primary prefix, anchored at `^config` and ending in `$` |
| Regex.ConditionalResourceRegex | pkg/reader/regex.go:116-137 | a ResourceRegex over a fresh ConditionalRegex: the resource suffix over the conditional prefix, anchored at `^conditional/namespaces/` and ending in `$` |
| Regex.PatternFragments | pkg/reader/regex.go:65-176 | the wildcard, the two scheme heads, the two name tails, the container wildcard and `_all_` are exactly the literal fragments of the builders |
| Regex.ConfigRegexExamples | pkg/reader/regex_test.go:31-56 | the three primary-scheme patterns the tests pin, piece by piece |
| Regex.ConditionalRegexExamples | pkg/reader/regex_test.go:76-101 | the three conditional-scheme patterns the tests pin |
| Regex.LogRegexExamples | pkg/reader/regex_test.go:122-153 | the three log patterns the tests pin |
| Deserializer.FillFieldsSpec | pkg/deserializer/deserialize.go:58-63 | after the loop over a field list, every listed field is present, present keys keep their values, and every added key is a listed field holding `DUMMY` |
| Deserializer.FillPresentFields | pkg/deserializer/deserialize.go:58-63 | the loop changes nothing when every listed field is present |
| Deserializer.WithTypeMetaSteps | pkg/deserializer/deserialize.go:28 | the repair fills `kind` first, then `apiVersion` |
| Deserializer.TypeMetaRepair | pkg/deserializer/deserialize.go:58-63 | the repaired object has `kind` and `apiVersion`; a present one is not overwritten, a missing one is `DUMMY`; the keys are the old keys plus those two |
| Deserializer.TypeMetaIdempotent | pkg/deserializer/deserialize.go:58-63 | repairing a repaired object changes nothing |
| Deserializer.InsertTypeMeta | pkg/deserializer/deserialize.go:53-69 | the re-encoded repaired object; input that does not decode to a JSON object, null included, is an unmarshal error and no bytes; an encode failure is a marshal error |
| Deserializer.InsertTypeMetaAsWritten | pkg/deserializer/deserialize.go:54-62 | as written, agrees with the corrected repair on every input except one that decodes to null, where it panics |
| Deserializer.NullPayloadPanics | pkg/deserializer/deserialize.go:54-62 | a payload decoding to null panics the code as written, while the corrected repair rejects it |
| Deserializer.JsonToUnstructed | pkg/deserializer/deserialize.go:30-49 | decodes as unstructured; on failure repairs and decodes again; a failed repair or retry is the error |
| Deserializer.NormalizeFails | pkg/deserializer/deserialize.go:30-49 | a payload the first decode accepts is returned unrepaired; the result is an error exactly when the first decode fails and the repair or the retry fails |
| Deserializer.NormalizeRepairs | pkg/deserializer/deserialize.go:33-44 | a payload rejected only for missing type fields comes out as the repaired object, with both fields and every other key unchanged, when the codec round-trips it |
| Deserializer.MissingKindExample | pkg/deserializer/deserialize_test.go:29-33 | a missing `kind` becomes `DUMMY`, `metadata` kept |
| Deserializer.MissingApiVersionExample | pkg/deserializer/deserialize_test.go:34-38 | a missing `apiVersion` becomes `DUMMY`, `metadata` kept |
| Deserializer.MissingBothExample | pkg/deserializer/deserialize_test.go:39-43 | both missing fields become `DUMMY` |
| Deserializer.CompleteTypeMetaExample | pkg/deserializer/deserialize_test.go:44-48 | existing `kind` and `apiVersion` are not overwritten |
| ConfigMapCollection.UpsertedSpec | pkg/deserializer/configmap_collection_test.go:24-140 | after an upsert the triple holds the value (overwriting), every other triple is unchanged, the ConfigMap is held, and other namespaces are untouched |
| ConfigMapCollection.ConfigMapData.constructor | pkg/deserializer/configmap_collection_test.go:36 | a new collection is empty |
| ConfigMapCollection.ConfigMapData.Upsert | pkg/deserializer/configmap_collection_test.go:132-139 | the new contents are the old ones with the key upserted |
| ConfigMapCollection.ConfigMapData.Flatten | pkg/reader/reader.go:124 | one ConfigMap document per (namespace, name) held, carrying exactly its keys, none twice, in an unspecified order |
| ConfigMapCollection.ConfigMapData.FlattenNamespace | pkg/reader/reader.go:124 | appends one document for each ConfigMap of one namespace to a partial flattening and keeps it a partial flattening |
| ConfigMapCollection.GroupingExample | pkg/deserializer/configmap_collection_test.go:30-72 | two keys of one ConfigMap accumulate in one entry |
| ConfigMapCollection.SameNamespaceExample | pkg/deserializer/configmap_collection_test.go:73-100 | a second ConfigMap in a namespace sits beside the first |
| ConfigMapCollection.NamespaceIsolationExample | pkg/deserializer/configmap_collection_test.go:101-130 | a ConfigMap upserted into a new namespace leaves the existing namespace unchanged; one with the same name as an existing ConfigMap there stays a separate ConfigMap |
| Reader.WellKnownInsightsJson | pkg/reader/reader.go:154-156 | the well-known path starts with `config/`, ends in `.json`, and the group can be read back from between the two |
| Reader.WellKnownInsightsJsonInjective | pkg/reader/reader.go:154-156 | two groups with the same well-known path are the same group |
| Reader.FirstMatchSpec | pkg/reader/reader.go:159-171 | the result is "" exactly when no pattern matches; otherwise it is the match of a pattern all of whose predecessors fail |
| Reader.ResourceFilename | pkg/reader/reader.go:159-171 | the loop returns the first match in list order |
| Reader.ContainerAndVersion | pkg/reader/reader.go:173-181 | the base name without `.log` cut at the first '_' into container and version, the version being the text up to the next '_'; neither contains '_'; no '_' gives an empty version |
| Reader.ContainerAndVersionOfBase | pkg/reader/reader.go:173-181 | the result is the first two '_'-fields of the base name, the second empty when there is one |
| Reader.LogNameBase | pkg/reader/reader.go:174 | a log file bare or under a directory is cut at its base name without `.log` |
| Reader.ContainerAndVersionOfLogName | pkg/reader/reader.go:173-181 | `<container>_<version>.log`, bare or under a directory, gives back (container, version) |
| Reader.ContainerOfLogName | pkg/reader/reader.go:173-181 | `<container>.log` gives (container, "") |
| Reader.ContainerAndVersionExamples | pkg/reader/reader_test.go:420-437 | `ingress-operator_current.log` and `ingress-operator.log` decompose as the tests pin |
| Reader.ConfigMapFromFilename | pkg/reader/reader.go:183-189 | the only error is the unknown-path error; on success the three fields contain no '/' |
| Reader.ConfigMapPathShape | pkg/reader/reader.go:184-187 | a path is accepted exactly when, after dropping one trailing '/', it contains four '/' |
| Reader.ConfigMapPathRoundTrip | pkg/reader/reader.go:183-189 | five '/'-free segments come back as (namespace, name, key) from segments 2-4, with or without a trailing '/'; the first two are not inspected; an empty key is rejected when the path ends in the ConfigMap's directory, and accepted when a further '/' follows (`…/name//` gives key `""`) |
| Reader.EmptyKeyRejected | pkg/reader/reader.go:184-186 | a path ending in the ConfigMap's directory (`…/cluster-config-v1/`) is an unknown path |
| Reader.BytesToString | pkg/reader/reader.go:115 | the body as text, one character per byte, same length |
| Reader.ReadResources | pkg/reader/reader.go:78-126 | the outcome of the fold over the archive: when stopped, its outcome; otherwise the direct documents in archive order followed by a flattening of the collected ConfigMaps |
| Reader.ReadEntry | pkg/reader/reader.go:94-122 | one loop iteration is one `Step`: the well-known file stops with the documents so far plus its own, or its error, and leaves the collection untouched; otherwise the new list and collection are the step's |
| Reader.StoppedStays | pkg/reader/reader.go:95-105 | after the well-known file or a fatal error, no further entry changes the result |
| Reader.WellKnownStops | pkg/reader/reader.go:95-105 | the well-known file ends the read: result = direct documents so far + its document, ConfigMap pieces dropped, or its decode error |
| Reader.UnmatchedSkipped | pkg/reader/reader.go:106-107 | entries that are neither the well-known file nor matched leave the result unchanged |
| Reader.ScanningDirects | pkg/reader/reader.go:106-121 | while scanning, the documents so far are exactly those of matched, decodable entries, in archive order |
| Reader.ScanningSawNoWellKnown | pkg/reader/reader.go:95-105 | while scanning, no entry read was the well-known file |
| Reader.StepLookup | pkg/reader/reader.go:110-118 | one entry changes a ConfigMap key only when it is a matched, undecodable piece for that key, and then to its body |
| Reader.CollectedPieces | pkg/reader/reader.go:110-118 | every collected key holds the body of the last piece read for it; a key is held only when such a piece was read |
| Reader.ReadLogs | pkg/reader/reader.go:128-152 | stops at the first matching header: no earlier header matched, its body is the stream; without a match the whole archive is read and the stream is empty; with no container given, the container of the matched file is defaulted |

## Left out

- `open` and `NewInsightsReader` (`pkg/reader/reader.go:44-75`): file opening and gzip framing are operating-system I/O. The tar stream is modelled as a finite sequence of entries.
- Tar read errors (`pkg/reader/reader.go:91-93,138-140`): the process exits on a corrupt archive. The model's archive is always well formed.
- `log.Fatal` on an undecodable well-known file (`pkg/reader/reader.go:100-102`): the process exit is modelled as a `Failure` outcome of `ReadResources`.
- The regex engine (`regexp.MustCompile`, `FindString`) is the parameter `find`. Nothing is proved about which paths a pattern matches; pattern texts are compared as strings. Because `find` is total, the panic of `regexp.MustCompile` (`pkg/reader/reader.go:163`) on a pattern that does not compile is not modelled; it is reachable, since the group, name, namespace and container go into the pattern unescaped (`pkg/reader/regex.go:73,105,131,167`), so a name such as `a(` crashes the command.
- `encoding/json` and `unstructured.UnmarshalJSON` are the parameter `Codec`. The key order of re-encoded output and the pointer identity of the returned documents are not modelled.
- The logrus logging throughout is left out. In `readLogs`, the defaulted container is only logged: a shadowed variable means it is never used. The model reports it in `LogStream.defaultedContainer`.
- `cmd/root.go`, `cmd/get.go`, `cmd/use.go` and `cmd/apiResources.go`: Cobra/Viper wiring, configuration persistence and printing.
- `pkg/helpers/helpers.go` is not part of this model. `Helpers.Plural` and `Helpers.Namespaced` are definitions assumed to agree with the tests, and the `Unalias` of that package is not modelled.
- `pkg/deserializer/configmap_collection.go` is not part of this model. `ConfigMapData` is modelled from its tests and from its use in `readResources`. The `kind` and `apiVersion` that `Flatten` gives its documents are not modelled.
- ConfigMapCollection.ConfigMapData.Flatten: the order of the documents is left unspecified, because Go map iteration order is unspecified. Its contract is stated up to order.
- Reader.ReadResources: states the flattened ConfigMaps only up to order, for the same reason.
- Deserializer.JsonToUnstructed: calls the corrected `InsertTypeMeta`, so a payload that decodes to `null` gives an unmarshal error here, where the code panics (`pkg/deserializer/deserialize.go:37,61`; see Findings).
- Reader.ReadResources: runs on the corrected repair, so a matched entry whose body is `null` takes the decode-failure branch (collected as a ConfigMap piece or skipped) and the scan goes on, and a `null` well-known file is a `Failure`; the code panics in both cases (`pkg/reader/reader.go:99,110`).
- Reader.ReadEntry: the same for one iteration: a `null` body takes the decode-failure branch instead of the panic at `pkg/reader/reader.go:110`.
- Reader.BytesToString: `raw.String()` is modelled as one character per byte, with no UTF-8 decoding, because strings here are sequences of characters.
- The override parameters of `insertTypeMeta` appear only in a stale test (`pkg/deserializer/deserializer_test.go:80`). The code has none.
- `ConfigRegex` and `ConditionalRegex` hold `resourceName`, which their `getPart` never reads; their unused `base` (`NewRegex`) is not modelled. `ResourceRegex` and `LogRegex` are functions of the text their base returns, and `Regex.getPart` is the empty base of `LogPart`.

## Findings

| source | as written | input that shows it | evidently intended | confidence | as-written member | corrected member |
|---|---|---|---|---|---|---|
| pkg/deserializer/deserialize.go:54-61 | `json.Unmarshal` of the JSON literal `null` into the map succeeds and leaves it nil; the loop then writes the missing `kind` into the nil map, which panics | a matched archive member whose body is `null`: the first unstructured decode rejects it, `insertTypeMeta` is called, and it panics (lemma `NullPayloadPanics`) | reject a non-object payload with an unmarshal error, as for any other input that is not a JSON object | not executed | Deserializer.InsertTypeMetaAsWritten | Deserializer.InsertTypeMeta |
