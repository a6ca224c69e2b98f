/** Argument handling of the `get` command: splitting `type/name` and the alias table. */
module Cmd {
  import opened GoStrings

  /** The static short-name table consulted by Unalias. */
  const Aliases: map<string, string> := map[
    "mc" := "machineconfig",
    "mcp" := "machineconfigpool",
    "cm" := "configmap",
    "co" := "clusteroperator",
    "ns" := "namespace"
  ]

  /** The canonical type name of a short name; any other name is returned unchanged. */
  function Unalias(alias: string): (canonical: string)
    ensures alias == "mc" ==> canonical == "machineconfig"
    ensures alias == "mcp" ==> canonical == "machineconfigpool"
    ensures alias == "cm" ==> canonical == "configmap"
    ensures alias == "co" ==> canonical == "clusteroperator"
    ensures alias == "ns" ==> canonical == "namespace"
    ensures alias !in {"mc", "mcp", "cm", "co", "ns"} ==> canonical == alias
  {
    if alias in Aliases then Aliases[alias] else alias
  }

  /** No canonical name is itself a short name, so unaliasing twice changes nothing. */
  lemma UnaliasIdempotent(alias: string)
    ensures Unalias(Unalias(alias)) == Unalias(alias)
  {
  }

  /**
   * The resource type and name of `get`'s positional arguments: either one
   * argument `type/name` (the text between the first and the second '/' is the
   * name), one argument `type`, or `type name` with later arguments ignored.
   * The type is unaliased; the name never is. The command demands at least one
   * argument.
   */
  function ProcessArgs(args: seq<string>): (r: (string, string))
    requires |args| >= 1
    ensures |args| == 1 && '/' in args[0] ==>
      var i := IndexOf(args[0], '/');
      && r.0 == Unalias(args[0][..i])
      && '/' !in r.1
      && HasPrefix(args[0][i + 1..], r.1)
      && (|args[0]| == i + 1 + |r.1| || args[0][i + 1 + |r.1|] == '/')
    ensures |args| == 1 && '/' !in args[0] ==> r == (Unalias(args[0]), "")
    ensures |args| > 1 ==> r == (Unalias(args[0]), args[1])
  {
    var (resourceGroup, resourceName) :=
      if |args| == 1 && '/' in args[0] then TypeAndName(args[0])
      else (args[0], if |args| > 1 then args[1] else "");
    (Unalias(resourceGroup), resourceName)
  }

  /** The first two '/'-separated fields of a `type/name` argument. */
  function TypeAndName(arg: string): (r: (string, string))
    requires '/' in arg
    ensures var i := IndexOf(arg, '/');
      && r.0 == arg[..i]
      && '/' !in r.1
      && HasPrefix(arg[i + 1..], r.1)
      && (|arg| == i + 1 + |r.1| || arg[i + 1 + |r.1|] == '/')
  {
    var parts := Split(arg, '/');
    SplitFirstField(arg, '/', IndexOf(arg, '/'));
    SplitSecondField(arg, '/', IndexOf(arg, '/'), parts[1]);
    (parts[0], parts[1])
  }

  /** `type/name` with separator-free parts gives back exactly that type (unaliased) and name. */
  lemma ProcessArgsOfPath(resourceGroup: string, resourceName: string)
    requires '/' !in resourceGroup && '/' !in resourceName
    ensures ProcessArgs([resourceGroup + "/" + resourceName]) == (Unalias(resourceGroup), resourceName)
  {
    var s := resourceGroup + "/" + resourceName;
    assert s[|resourceGroup|] == '/';
    SplitAfterFreePrefix(resourceGroup, '/', resourceName);
    SplitWithoutSeparator(resourceName, '/');
  }

  /** The three argument shapes the command's tests pin. */
  lemma ProcessArgsExamples()
    ensures ProcessArgs(["pod"]) == ("pod", "")
    ensures ProcessArgs(["pod/name"]) == ("pod", "name")
    ensures ProcessArgs(["pod", "name"]) == ("pod", "name")
  {
    ProcessArgsOfPath("pod", "name");
    assert "pod" + "/" + "name" == "pod/name";
  }
}
