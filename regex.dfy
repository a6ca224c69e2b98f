/**
 * The path-pattern builders of package reader. A query (resource group,
 * resource name, namespace) becomes the text of a regular expression, built by
 * concatenation: a scheme prefix (primary config tree or conditional
 * namespaces tree), then a name suffix. The text is never interpreted here.
 */
module Regex {
  import opened GoStrings
  import opened Helpers

  /** The namespace value that stands for every namespace. */
  const AllNamespaceValue := "_all_"
  /** What the group "all" and the namespace `_all_` are replaced with. */
  const NameWildcard := @"[a-z0-9\-]+"
  const ConfigHead := @"^config(/storage)?/"
  const ConditionalHead := @"^conditional/namespaces/"
  /** Name suffix when a resource name is given: `<name>.json` or a file under `<name>/`. */
  const NamedTail := @"(.json|/[a-z0-9\-\.]+)$"
  /** Name suffix when no resource name is given. */
  const AnyNameTail := @"[a-z0-9\.\-]+(.json|/[a-z0-9\-\.]+)(.json)?$"
  /** Container part of a log pattern when no container is given. */
  const AnyContainer := @"[a-z0-9\.\-]+"

  /** The namespace a prefix builder holds after its first GetPart: `_all_` becomes the wildcard. */
  function ExpandNamespace(namespace: string): (r: string)
    ensures namespace == AllNamespaceValue ==> r == NameWildcard
    ensures namespace != AllNamespaceValue ==> r == namespace
    ensures r != AllNamespaceValue
  {
    if namespace == AllNamespaceValue then NameWildcard else namespace
  }

  /** The type segment of the primary scheme: any name for "all", else the plural fragment. */
  function GroupSegment(resourceGroup: string): (r: string)
    ensures resourceGroup == "all" ==> r == NameWildcard
    ensures resourceGroup != "all" ==> r == Plural(resourceGroup)
  {
    if resourceGroup == "all" then NameWildcard else Plural(resourceGroup)
  }

  /** Whether the primary scheme adds a namespace segment for this query. */
  predicate HasNamespaceSegment(resourceGroup: string, namespace: string) {
    Namespaced(resourceGroup) && namespace != ""
  }

  /** The namespace ConfigRegex holds after GetPart: only a namespaced query expands `_all_`. */
  function ConfigNamespaceAfter(resourceGroup: string, namespace: string): (r: string)
    ensures HasNamespaceSegment(resourceGroup, namespace) ==> r == ExpandNamespace(namespace)
    ensures !HasNamespaceSegment(resourceGroup, namespace) ==> r == namespace
  {
    if HasNamespaceSegment(resourceGroup, namespace) then ExpandNamespace(namespace) else namespace
  }

  /**
   * The primary-scheme prefix ConfigRegex.getPart returns: anchored at
   * `config/` or `config/storage/`, then the type segment, then a namespace
   * segment exactly when the type is namespaced and a namespace is given.
   */
  function ConfigPrefix(resourceGroup: string, namespace: string): (r: string)
    ensures HasPrefix(r, ConfigHead + GroupSegment(resourceGroup) + "/")
    ensures HasSuffix(r, "/")
    ensures !HasNamespaceSegment(resourceGroup, namespace) ==>
      r == ConfigHead + GroupSegment(resourceGroup) + "/"
    ensures HasNamespaceSegment(resourceGroup, namespace) ==>
      r == ConfigHead + GroupSegment(resourceGroup) + "/" + ExpandNamespace(namespace) + "/"
  {
    var reg := ConfigHead + GroupSegment(resourceGroup) + "/";
    if HasNamespaceSegment(resourceGroup, namespace) then reg + ExpandNamespace(namespace) + "/" else reg
  }

  /**
   * The conditional-scheme prefix ConditionalRegex.getPart returns: the
   * namespace segment is always there, even when the namespace is empty, and
   * the group "all" gets no special treatment.
   */
  function ConditionalPrefix(resourceGroup: string, namespace: string): (r: string)
    ensures r == ConditionalHead + ExpandNamespace(namespace) + "/" + Plural(resourceGroup) + "/"
    ensures HasPrefix(r, ConditionalHead) && HasSuffix(r, "/")
  {
    var head := ConditionalHead + ExpandNamespace(namespace);
    ConcatAffixes(ConditionalHead, ExpandNamespace(namespace));
    PrefixExtends(head, ConditionalHead, "/");
    PrefixExtends(head + "/", ConditionalHead, Plural(resourceGroup));
    var reg := head + "/" + Plural(resourceGroup);
    PrefixExtends(reg, ConditionalHead, "/");
    ConcatAffixes(reg, "/");
    reg + "/"
  }

  /**
   * ResourceRegex.getPart given the text its base builder returned: the base,
   * then the name (or a name wildcard); the result always ends in `$`.
   */
  function ResourcePart(base: string, resourceName: string): (r: string)
    ensures HasPrefix(r, base) && HasSuffix(r, "$")
    ensures resourceName != "" ==> r == base + resourceName + NamedTail
    ensures resourceName == "" ==> r == base + AnyNameTail
  {
    var reg := if resourceName != "" then base + resourceName + NamedTail else base + AnyNameTail;
    assert reg[..|base|] == base;
    reg
  }

  /**
   * LogRegex.getPart. Its base is the plain Regex, whose getPart is the empty
   * string, so the pattern has no scheme prefix. Without a resource name there
   * is no pattern at all (the empty string).
   */
  function LogPart(resourceName: string, containerName: string, previous: bool): (r: string)
    ensures resourceName == "" <==> r == ""
    ensures resourceName != "" ==>
      r == "logs/" + resourceName + "/" + (if containerName == "" then AnyContainer else containerName)
           + (if previous then "_previous" else "_current") + ".log"
    ensures resourceName != "" ==> HasPrefix(r, "logs/") && HasSuffix(r, ".log")
  {
    var base := "";
    if resourceName == "" then ""
    else
      var reg := base + "logs/" + resourceName + "/" + (if containerName == "" then AnyContainer else containerName);
      var reg := reg + (if previous then "_previous" else "_current");
      assert (reg + ".log")[..5] == "logs/";
      reg + ".log"
  }

  /** A type without namespace scope yields the same primary prefix for every namespace. */
  lemma ClusterScopedIgnoresNamespace(resourceGroup: string, namespace1: string, namespace2: string)
    requires !Namespaced(resourceGroup)
    ensures ConfigPrefix(resourceGroup, namespace1) == ConfigPrefix(resourceGroup, namespace2)
    ensures ConfigPrefix(resourceGroup, namespace1) == ConfigHead + Plural(resourceGroup) + "/"
  {
  }

  /** Replacing `_all_` by the wildcard before building changes nothing: the builders do it themselves. */
  lemma AllNamespacesIsWildcard(resourceGroup: string)
    ensures ConfigPrefix(resourceGroup, AllNamespaceValue) == ConfigPrefix(resourceGroup, NameWildcard)
    ensures ConditionalPrefix(resourceGroup, AllNamespaceValue) == ConditionalPrefix(resourceGroup, NameWildcard)
  {
  }

  /**
   * The namespace the builders leave behind gives the same prefix again: a
   * second getPart returns what the first one did.
   */
  lemma PrefixStable(resourceGroup: string, namespace: string)
    ensures ConfigPrefix(resourceGroup, ConfigNamespaceAfter(resourceGroup, namespace))
         == ConfigPrefix(resourceGroup, namespace)
    ensures ConditionalPrefix(resourceGroup, ExpandNamespace(namespace))
         == ConditionalPrefix(resourceGroup, namespace)
  {
  }

  /** The primary-scheme builder; GetPart writes the expanded namespace back, as ConfigRegex.getPart does. */
  class ConfigRegex {
    const resourceGroup: string
    const resourceName: string
    var namespace: string

    constructor (resourceGroup: string, resourceName: string, namespace: string)
      ensures this.resourceGroup == resourceGroup && this.resourceName == resourceName
      ensures this.namespace == namespace
    {
      this.resourceGroup := resourceGroup;
      this.resourceName := resourceName;
      this.namespace := namespace;
    }

    /** The pattern GetPart returns in the current state. */
    function Part(): string
      reads this
    {
      ConfigPrefix(resourceGroup, namespace)
    }

    method GetPart() returns (reg: string)
      modifies this
      ensures reg == ConfigPrefix(resourceGroup, old(namespace))
      ensures namespace == ConfigNamespaceAfter(resourceGroup, old(namespace))
      ensures Part() == reg
    {
      var resourceGroupPart := Plural(resourceGroup);
      if resourceGroup == "all" {
        resourceGroupPart := NameWildcard;
      }
      reg := ConfigHead + resourceGroupPart + "/";
      if Namespaced(resourceGroup) {
        if namespace != "" {
          if namespace == AllNamespaceValue {
            namespace := NameWildcard;
          }
          reg := reg + namespace + "/";
        }
      }
    }
  }

  /** The conditional-scheme builder; GetPart writes the expanded namespace back, as ConditionalRegex.getPart does. */
  class ConditionalRegex {
    const resourceGroup: string
    const resourceName: string
    var namespace: string

    constructor (resourceGroup: string, resourceName: string, namespace: string)
      ensures this.resourceGroup == resourceGroup && this.resourceName == resourceName
      ensures this.namespace == namespace
    {
      this.resourceGroup := resourceGroup;
      this.resourceName := resourceName;
      this.namespace := namespace;
    }

    /** The pattern GetPart returns in the current state. */
    function Part(): string
      reads this
    {
      ConditionalPrefix(resourceGroup, namespace)
    }

    method GetPart() returns (reg: string)
      modifies this
      ensures reg == ConditionalPrefix(resourceGroup, old(namespace))
      ensures namespace == ExpandNamespace(old(namespace))
      ensures Part() == reg
    {
      if namespace == AllNamespaceValue {
        namespace := NameWildcard;
      }
      reg := ConditionalHead + namespace + "/" + Plural(resourceGroup) + "/";
    }
  }

  /**
   * The primary-scheme resource pattern, built as the tests compose it:
   * a ResourceRegex over a fresh ConfigRegex for the same query.
   */
  method ConfigResourceRegex(resourceGroup: string, resourceName: string, namespace: string)
    returns (reg: string)
    ensures reg == ResourcePart(ConfigPrefix(resourceGroup, namespace), resourceName)
    ensures HasPrefix(reg, ConfigHead) && HasSuffix(reg, "$")
  {
    var base := new ConfigRegex(resourceGroup, resourceName, namespace);
    var prefix := base.GetPart();
    reg := ResourcePart(prefix, resourceName);
    PrefixTransitive(prefix, ConfigHead + GroupSegment(resourceGroup) + "/", ConfigHead);
    PrefixTransitive(reg, prefix, ConfigHead);
  }

  /** The conditional-scheme resource pattern: a ResourceRegex over a fresh ConditionalRegex. */
  method ConditionalResourceRegex(resourceGroup: string, resourceName: string, namespace: string)
    returns (reg: string)
    ensures reg == ResourcePart(ConditionalPrefix(resourceGroup, namespace), resourceName)
    ensures HasPrefix(reg, ConditionalHead) && HasSuffix(reg, "$")
  {
    var base := new ConditionalRegex(resourceGroup, resourceName, namespace);
    var prefix := base.GetPart();
    reg := ResourcePart(prefix, resourceName);
    PrefixTransitive(reg, prefix, ConditionalHead);
  }

  /** The fragments the patterns are built from, as the builders and their tests spell them. */
  lemma PatternFragments()
    ensures NameWildcard == @"[a-z0-9\-]+"
    ensures ConfigHead == @"^config(/storage)?/"
    ensures ConditionalHead == @"^conditional/namespaces/"
    ensures NamedTail == @"(.json|/[a-z0-9\-\.]+)$"
    ensures AnyNameTail == @"[a-z0-9\.\-]+(.json|/[a-z0-9\-\.]+)(.json)?$"
    ensures AnyContainer == @"[a-z0-9\.\-]+"
    ensures AllNamespaceValue == "_all_"
  {
  }

  /**
   * The primary-scheme patterns the builders' tests pin, each written as the
   * pieces it is assembled from. With the constants replaced by their literals
   * (PatternFragments), the pieces of each ensures in this lemma and the two
   * below concatenate to the quoted pattern of pkg/reader/regex_test.go.
   */
  lemma ConfigRegexExamples()
    ensures ResourcePart(ConfigPrefix("pod", "openshift-ingress-operator"), "")
         == ConfigHead + "pods?" + "/" + "openshift-ingress-operator" + "/" + AnyNameTail
    ensures ResourcePart(ConfigPrefix("pod", "openshift-ingress-operator"), "ingress-operator-65ccf4f77c-b2hv7")
         == ConfigHead + "pods?" + "/" + "openshift-ingress-operator" + "/" + "ingress-operator-65ccf4f77c-b2hv7" + NamedTail
    ensures ResourcePart(ConfigPrefix("pod", "_all_"), "")
         == ConfigHead + "pods?" + "/" + NameWildcard + "/" + AnyNameTail
  {
    HelperExamples();
  }

  /** The conditional-scheme patterns the builders' tests pin. */
  lemma ConditionalRegexExamples()
    ensures ResourcePart(ConditionalPrefix("pod", "openshift-ingress"), "")
         == ConditionalHead + "openshift-ingress" + "/" + "pods?" + "/" + AnyNameTail
    ensures ResourcePart(ConditionalPrefix("pod", "openshift-ingress"), "router-default-77865d7b86-dh424")
         == ConditionalHead + "openshift-ingress" + "/" + "pods?" + "/" + "router-default-77865d7b86-dh424" + NamedTail
    ensures ResourcePart(ConditionalPrefix("pod", "_all_"), "")
         == ConditionalHead + NameWildcard + "/" + "pods?" + "/" + AnyNameTail
  {
    HelperExamples();
  }

  /** The log patterns the builders' tests pin. */
  lemma LogRegexExamples()
    ensures LogPart("router-default-77865d7b86-dh424", "", false)
         == "logs/" + "router-default-77865d7b86-dh424" + "/" + AnyContainer + "_current" + ".log"
    ensures LogPart("router-default-77865d7b86-dh424", "", true)
         == "logs/" + "router-default-77865d7b86-dh424" + "/" + AnyContainer + "_previous" + ".log"
    ensures LogPart("router-default-77865d7b86-dh424", "router", true)
         == "logs/" + "router-default-77865d7b86-dh424" + "/" + "router" + "_previous" + ".log"
  {
  }
}
