/**
 * The two lookups of package helpers that the pattern builders call. Their
 * bodies are not part of this model: each is a definition chosen to agree with
 * every example the package's tests pin, stated here as an assumption.
 */
module Helpers {
  import opened GoStrings

  /** The record types whose archive paths carry no namespace segment. */
  const ClusterScoped: set<string> :=
    {"machineconfig", "machineconfigpool", "clusteroperator", "node", "storageclass", "hostsubnet"}

  /** Assumed: a type is namespaced unless it is one of the six cluster-scoped types. */
  predicate Namespaced(resourceGroup: string)
    ensures !Namespaced(resourceGroup) <==>
      resourceGroup == "machineconfig" || resourceGroup == "machineconfigpool" ||
      resourceGroup == "clusteroperator" || resourceGroup == "node" ||
      resourceGroup == "storageclass" || resourceGroup == "hostsubnet"
  {
    resourceGroup !in ClusterScoped
  }

  /**
   * Assumed: the regex fragment for a type's directory name, the one
   * helpers_test.go:66-79 pins; it always ends in `s?`.
   */
  function Plural(resourceGroup: string): (r: string)
    ensures HasSuffix(r, "s?")
  {
    if HasSuffix(resourceGroup, "ss") then resourceGroup + "es?"
    else TrimSuffix(resourceGroup, "s") + "s?"
  }

  /** The examples the tests pin for Namespaced and Plural. */
  lemma HelperExamples()
    ensures !Namespaced("machineconfig") && !Namespaced("machineconfigpool")
    ensures !Namespaced("clusteroperator") && !Namespaced("node")
    ensures !Namespaced("storageclass") && !Namespaced("hostsubnet")
    ensures Namespaced("pod")
    ensures Plural("pod") == "pods?"
    ensures Plural("storageclass") == "storageclasses?"
    ensures Plural("pods") == "pods?"
  {
    assert !HasSuffix("pod", "ss") && !HasSuffix("pod", "s");
    assert HasSuffix("storageclass", "ss");
    assert !HasSuffix("pods", "ss") && HasSuffix("pods", "s");
  }

  /**
   * An already plural input gives the same fragment as its singular: adding one
   * "s" to a name that does not end in "s" does not change Plural.
   */
  lemma {:induction false} PluralOfPlural(resourceGroup: string)
    requires !HasSuffix(resourceGroup, "s")
    ensures Plural(resourceGroup + "s") == Plural(resourceGroup)
  {
    var plural := resourceGroup + "s";
    assert plural[|plural| - 1..] == "s";
    if |resourceGroup| >= 1 {
      assert plural[|plural| - 2..] == [resourceGroup[|resourceGroup| - 1]] + "s";
      assert resourceGroup[|resourceGroup| - 1..] == [resourceGroup[|resourceGroup| - 1]];
    }
    assert !HasSuffix(plural, "ss");
    assert plural[..|plural| - 1] == resourceGroup;
  }
}
