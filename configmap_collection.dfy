/**
 * The ConfigMap accumulator of package deserializer. The archive stores a
 * ConfigMap exploded, one file per key; the reader collects those files into
 * a three-level map namespace -> ConfigMap name -> key -> value and, once the
 * scan is over, flattens it into one document per (namespace, name).
 */
module ConfigMapCollection {
  import opened Wrappers
  import opened Deserializer

  /** namespace -> ConfigMap name -> key -> value */
  type Collector = map<string, map<string, map<string, string>>>

  /** The value stored under (namespace, name, key), if any. */
  function Lookup(c: Collector, namespace: string, name: string, key: string): Option<string> {
    if namespace in c && name in c[namespace] && key in c[namespace][name]
    then Some(c[namespace][name][key]) else None
  }

  /** The (namespace, name) pairs of the ConfigMaps held. */
  function Pairs(c: Collector): set<(string, string)> {
    set namespace, name | namespace in c && name in c[namespace] :: (namespace, name)
  }

  /** The keys already held for one ConfigMap (none for a ConfigMap not seen yet). */
  function Entries(c: Collector, namespace: string, name: string): map<string, string> {
    if namespace in c && name in c[namespace] then c[namespace][name] else map[]
  }

  /** Upsert on the collector value. */
  function Upserted(c: Collector, namespace: string, name: string, key: string, value: string): Collector {
    var configMaps := if namespace in c then c[namespace] else map[];
    c[namespace := configMaps[name := Entries(c, namespace, name)[key := value]]]
  }

  /**
   * Upsert stores the key under (namespace, name), overwriting an earlier
   * value for the same triple; other keys of that ConfigMap, other ConfigMaps
   * of the namespace and other namespaces are unchanged, and the ConfigMap is
   * held afterwards.
   */
  lemma UpsertedSpec(c: Collector, namespace: string, name: string, key: string, value: string)
    ensures Lookup(Upserted(c, namespace, name, key, value), namespace, name, key) == Some(value)
    ensures forall ns, n, k :: (ns, n, k) != (namespace, name, key) ==>
      Lookup(Upserted(c, namespace, name, key, value), ns, n, k) == Lookup(c, ns, n, k)
    ensures Pairs(Upserted(c, namespace, name, key, value)) == Pairs(c) + {(namespace, name)}
    ensures Upserted(c, namespace, name, key, value).Keys == c.Keys + {namespace}
    ensures forall ns :: ns in c && ns != namespace ==> Upserted(c, namespace, name, key, value)[ns] == c[ns]
  {
    var r := Upserted(c, namespace, name, key, value);
    forall p | p in Pairs(r) ensures p in Pairs(c) + {(namespace, name)} {
      var (ns, n) := p;
      assert ns in r && n in r[ns];
    }
    forall p | p in Pairs(c) + {(namespace, name)} ensures p in Pairs(r) {
      var (ns, n) := p;
      assert ns in r && n in r[ns];
    }
  }

  /** The keys of the ConfigMap documents in `docs`. */
  function KeysOf(docs: seq<Resource>): set<(string, string)> {
    set i | 0 <= i < |docs| && docs[i].ConfigMap? :: (docs[i].namespace, docs[i].name)
  }

  /**
   * `docs` is a flattening of `c`: one ConfigMap document per (namespace, name)
   * held, each carrying exactly the keys collected for it, in some order.
   */
  ghost predicate IsFlattening(c: Collector, docs: seq<Resource>) {
    && (forall i :: 0 <= i < |docs| ==>
          && docs[i].ConfigMap?
          && docs[i].namespace in c && docs[i].name in c[docs[i].namespace]
          && docs[i].data == c[docs[i].namespace][docs[i].name])
    && (forall i, j :: 0 <= i < j < |docs| ==>
          (docs[i].namespace, docs[i].name) != (docs[j].namespace, docs[j].name))
    && KeysOf(docs) == Pairs(c)
  }

  /** The pairs of the ConfigMaps in the namespaces `done`. */
  function PairsIn(c: Collector, done: set<string>): set<(string, string)> {
    set namespace, name | namespace in done && namespace in c && name in c[namespace] :: (namespace, name)
  }

  /** `docs` flattens exactly the ConfigMaps whose pairs are in `done`. */
  ghost predicate FlattensPart(c: Collector, docs: seq<Resource>, done: set<(string, string)>) {
    && (forall i :: 0 <= i < |docs| ==>
          && docs[i].ConfigMap?
          && docs[i].namespace in c && docs[i].name in c[docs[i].namespace]
          && docs[i].data == c[docs[i].namespace][docs[i].name])
    && (forall i, j :: 0 <= i < j < |docs| ==>
          (docs[i].namespace, docs[i].name) != (docs[j].namespace, docs[j].name))
    && KeysOf(docs) == done
  }

  /** Adding the document of a pair not yet flattened keeps the partial flattening. */
  lemma FlattensMore(c: Collector, docs: seq<Resource>, done: set<(string, string)>, namespace: string, name: string)
    requires FlattensPart(c, docs, done)
    requires namespace in c && name in c[namespace] && (namespace, name) !in done
    ensures FlattensPart(c, docs + [ConfigMap(namespace, name, c[namespace][name])], done + {(namespace, name)})
  {
    var docs' := docs + [ConfigMap(namespace, name, c[namespace][name])];
    assert KeysOf(docs') == KeysOf(docs) + {(namespace, name)} by {
      forall p | p in KeysOf(docs') ensures p in KeysOf(docs) + {(namespace, name)} {
        var i :| 0 <= i < |docs'| && docs'[i].ConfigMap? && p == (docs'[i].namespace, docs'[i].name);
        if i < |docs| {
          assert docs'[i] == docs[i];
        }
      }
      forall p | p in KeysOf(docs) ensures p in KeysOf(docs') {
        var i :| 0 <= i < |docs| && docs[i].ConfigMap? && p == (docs[i].namespace, docs[i].name);
        assert docs'[i] == docs[i];
      }
      assert docs'[|docs|].ConfigMap?;
    }
    forall i | 0 <= i < |docs|
      ensures (docs'[i].namespace, docs'[i].name) != (namespace, name)
    {
      assert docs'[i] == docs[i];
      assert (docs[i].namespace, docs[i].name) in KeysOf(docs);
    }
  }

  /** The object the reader fills with the exploded ConfigMap files it meets. */
  class ConfigMapData {
    var data: Collector

    /** NewConfigMapData: an empty collection. */
    constructor ()
      ensures data == map[]
    {
      data := map[];
    }

    method Upsert(namespace: string, name: string, key: string, value: string)
      modifies this
      ensures data == Upserted(old(data), namespace, name, key, value)
    {
      var configMaps := if namespace in data then data[namespace] else map[];
      var entries := if name in configMaps then configMaps[name] else map[];
      data := data[namespace := configMaps[name := entries[key := value]]];
    }

    /**
     * One ConfigMap document per (namespace, name) collected. The order is
     * whatever the map traversal gives, so it is left unspecified: the keys are
     * picked in an arbitrary order.
     */
    method Flatten() returns (docs: seq<Resource>)
      ensures IsFlattening(data, docs)
    {
      docs := [];
      var namespaces := data.Keys;
      while namespaces != {}
        invariant namespaces <= data.Keys
        invariant FlattensPart(data, docs, PairsIn(data, data.Keys - namespaces))
        decreases namespaces
      {
        var namespace :| namespace in namespaces;
        ghost var doneBefore := PairsIn(data, data.Keys - namespaces);
        docs := FlattenNamespace(namespace, docs, doneBefore);
        namespaces := namespaces - {namespace};
        assert PairsIn(data, data.Keys - namespaces)
            == doneBefore + set n | n in data[namespace].Keys :: (namespace, n);
      }
      assert PairsIn(data, data.Keys) == Pairs(data);
    }

    /** Flatten's inner loop: appends the documents of one namespace's ConfigMaps. */
    method FlattenNamespace(namespace: string, docs: seq<Resource>, ghost doneBefore: set<(string, string)>)
      returns (docs': seq<Resource>)
      requires namespace in data
      requires FlattensPart(data, docs, doneBefore)
      requires forall p :: p in doneBefore ==> p.0 != namespace
      ensures FlattensPart(data, docs', doneBefore + set n | n in data[namespace].Keys :: (namespace, n))
    {
      docs' := docs;
      var names := data[namespace].Keys;
      while names != {}
        invariant names <= data[namespace].Keys
        invariant FlattensPart(data, docs', doneBefore + set n | n in data[namespace].Keys - names :: (namespace, n))
        decreases names
      {
        var name :| name in names;
        ghost var done := doneBefore + set n | n in data[namespace].Keys - names :: (namespace, n);
        FlattensMore(data, docs', done, namespace, name);
        docs' := docs' + [ConfigMap(namespace, name, data[namespace][name])];
        names := names - {name};
        assert done + {(namespace, name)}
            == doneBefore + set n | n in data[namespace].Keys - names :: (namespace, n);
      }
    }
  }

  /** Two keys of one ConfigMap end up in one document holding both (the tests' example). */
  lemma GroupingExample()
    ensures
      var c := Upserted(Upserted(map[], "kube-system", "cluster-config-v1", "install-config", "value"),
                        "kube-system", "cluster-config-v1", "new-key", "new-value");
      c == map["kube-system" := map["cluster-config-v1" := map["install-config" := "value", "new-key" := "new-value"]]]
  {
    var first := Upserted(map[], "kube-system", "cluster-config-v1", "install-config", "value");
    assert first == map["kube-system" := map["cluster-config-v1" := map["install-config" := "value"]]];
    assert Entries(first, "kube-system", "cluster-config-v1") == map["install-config" := "value"];
    var keys := map["install-config" := "value"]["new-key" := "new-value"];
    assert keys == map["install-config" := "value", "new-key" := "new-value"];
    var configMaps := first["kube-system"];
    assert configMaps["cluster-config-v1" := keys] == map["cluster-config-v1" := keys];
    assert first["kube-system" := map["cluster-config-v1" := keys]] == map["kube-system" := map["cluster-config-v1" := keys]];
  }

  /** A second ConfigMap in the same namespace sits beside the first (the tests' example). */
  lemma SameNamespaceExample()
    ensures
      var c := Upserted(map["kube-system" := map["cluster-config-v1" := map["install-config" := "value"]]],
                        "kube-system", "new-configmap", "new-key", "new-value");
      c == map["kube-system" := map["cluster-config-v1" := map["install-config" := "value"],
                                    "new-configmap" := map["new-key" := "new-value"]]]
  {
    var original := map["kube-system" := map["cluster-config-v1" := map["install-config" := "value"]]];
    assert Entries(original, "kube-system", "new-configmap") == map[];
    var configMaps := original["kube-system"];
    assert configMaps["new-configmap" := map["new-key" := "new-value"]]
        == map["cluster-config-v1" := map["install-config" := "value"], "new-configmap" := map["new-key" := "new-value"]];
  }

  /**
   * A ConfigMap upserted into a new namespace leaves the existing namespace
   * unchanged (the tests' example), and so does one with the same name as a
   * ConfigMap of the existing namespace: the two stay two ConfigMaps.
   */
  lemma NamespaceIsolationExample()
    ensures
      var c := Upserted(map["kube-system" := map["cluster-config-v1" := map["install-config" := "value"]]],
                        "new-namespace", "new-configmap", "new-key", "new-value");
      c == map["kube-system" := map["cluster-config-v1" := map["install-config" := "value"]],
               "new-namespace" := map["new-configmap" := map["new-key" := "new-value"]]]
    ensures
      var c := Upserted(map["kube-system" := map["cluster-config-v1" := map["install-config" := "value"]]],
                        "new-namespace", "cluster-config-v1", "new-key", "new-value");
      c == map["kube-system" := map["cluster-config-v1" := map["install-config" := "value"]],
               "new-namespace" := map["cluster-config-v1" := map["new-key" := "new-value"]]]
  {
  }
}
