/**
 * The parts of Go's `strings` and `path` packages that the reader relies on,
 * on Dafny strings. Separators are single characters: every call site in the
 * modelled code splits on "/" or "_".
 */
module GoStrings {

  predicate HasPrefix(s: string, prefix: string) {
    |prefix| <= |s| && s[..|prefix|] == prefix
  }

  predicate HasSuffix(s: string, suffix: string) {
    |suffix| <= |s| && s[|s| - |suffix|..] == suffix
  }

  /** A concatenation starts with its left part and ends with its right part. */
  lemma ConcatAffixes(a: string, b: string)
    ensures HasPrefix(a + b, a) && HasSuffix(a + b, b)
  {
    assert (a + b)[..|a|] == a;
    assert (a + b)[|a|..] == b;
  }

  /** Appending keeps a prefix. */
  lemma PrefixExtends(s: string, prefix: string, more: string)
    requires HasPrefix(s, prefix)
    ensures HasPrefix(s + more, prefix)
  {
    assert (s + more)[..|prefix|] == s[..|prefix|];
  }

  lemma PrefixTransitive(a: string, b: string, c: string)
    requires HasPrefix(a, b) && HasPrefix(b, c)
    ensures HasPrefix(a, c)
  {
    assert a[..|c|] == a[..|b|][..|c|];
  }

  /** strings.TrimSuffix: drops one occurrence of `suffix` at the end, if there is one. */
  function TrimSuffix(s: string, suffix: string): (r: string)
    ensures HasSuffix(s, suffix) ==> r + suffix == s
    ensures !HasSuffix(s, suffix) ==> r == s
  {
    if HasSuffix(s, suffix) then
      var r := s[..|s| - |suffix|];
      assert r + suffix == s;
      r
    else s
  }

  /** The position of the first `c` in `s` (strings.Index for a one-character separator). */
  function IndexOf(s: string, c: char): (i: nat)
    requires c in s
    ensures i < |s| && s[i] == c && c !in s[..i]
  {
    if s[0] == c then 0
    else
      var i := 1 + IndexOf(s[1..], c);
      assert s[..i] == [s[0]] + s[1..][..i - 1];
      i
  }

  /** strings.Join with a one-character separator. */
  function Join(parts: seq<string>, sep: char): string {
    if |parts| == 0 then ""
    else if |parts| == 1 then parts[0]
    else parts[0] + [sep] + Join(parts[1..], sep)
  }

  /**
   * strings.Split with a one-character separator: the maximal separator-free
   * pieces of `s`, in order; joining them back gives `s`.
   */
  function Split(s: string, sep: char): (parts: seq<string>)
    ensures |parts| >= 1
    ensures forall i :: 0 <= i < |parts| ==> sep !in parts[i]
    ensures Join(parts, sep) == s
    decreases |s|
  {
    if sep !in s then [s]
    else
      var i := IndexOf(s, sep);
      var rest := Split(s[i + 1..], sep);
      assert s == s[..i] + [sep] + s[i + 1..];
      [s[..i]] + rest
  }

  /** Split is the inverse of Join on separator-free pieces. */
  lemma {:induction false} SplitJoin(parts: seq<string>, sep: char)
    requires |parts| >= 1
    requires forall i :: 0 <= i < |parts| ==> sep !in parts[i]
    ensures Split(Join(parts, sep), sep) == parts
  {
    if |parts| > 1 {
      var tail := Join(parts[1..], sep);
      assert Join(parts, sep) == parts[0] + [sep] + tail;
      SplitAfterFreePrefix(parts[0], sep, tail);
      SplitJoin(parts[1..], sep);
      assert [parts[0]] + parts[1..] == parts;
    } else {
      assert parts == [parts[0]];
    }
  }

  /** A separator-free head followed by the separator is split off as the first field. */
  lemma SplitAfterFreePrefix(head: string, sep: char, tail: string)
    requires sep !in head
    ensures Split(head + [sep] + tail, sep) == [head] + Split(tail, sep)
  {
    var s := head + [sep] + tail;
    IndexOfAfterFreePrefix(head, sep, tail);
    assert s[..|head|] == head;
    assert s[|head| + 1..] == tail;
  }

  /** Split gives one field more than there are separators. */
  lemma {:induction false} SplitCount(s: string, sep: char)
    ensures |Split(s, sep)| == multiset(s)[sep] + 1
    decreases |s|
  {
    if sep in s {
      var i := IndexOf(s, sep);
      assert s == s[..i] + [sep] + s[i + 1..];
      assert multiset(s) == multiset(s[..i]) + multiset([sep]) + multiset(s[i + 1..]);
      SplitCount(s[i + 1..], sep);
    }
  }

  lemma IndexOfAfterFreePrefix(prefix: string, sep: char, tail: string)
    requires sep !in prefix
    ensures sep in prefix + [sep] + tail
    ensures IndexOf(prefix + [sep] + tail, sep) == |prefix|
  {
    var s := prefix + [sep] + tail;
    assert s[|prefix|] == sep;
    assert s[..|prefix|] == prefix;
    var i := IndexOf(s, sep);
    assert forall k :: 0 <= k < |prefix| ==> s[k] == prefix[k];
    assert i <= |prefix| by {
      assert forall k :: 0 <= k < i ==> s[..i][k] == s[k];
    }
  }

  /** Without a separator, Split gives back the whole string as its only field. */
  lemma SplitWithoutSeparator(s: string, sep: char)
    requires sep !in s
    ensures Split(s, sep) == [s]
  {
  }

  /** With a separator, the first field of Split is the text before the first separator. */
  lemma SplitFirstField(s: string, sep: char, i: nat)
    requires sep in s && i == IndexOf(s, sep)
    ensures |Split(s, sep)| > 1
    ensures Split(s, sep)[0] == s[..i]
  {
    assert Split(s, sep) == [s[..i]] + Split(s[i + 1..], sep);
  }

  /**
   * With a separator, the second field of Split follows the first separator,
   * up to the next separator or the end.
   */
  lemma SplitSecondField(s: string, sep: char, i: nat, second: string)
    requires sep in s && i == IndexOf(s, sep)
    requires |Split(s, sep)| > 1 && second == Split(s, sep)[1]
    ensures i + 1 + |second| <= |s|
    ensures s[i + 1..i + 1 + |second|] == second
    ensures i + 1 + |second| == |s| || s[i + 1 + |second|] == sep
  {
    var rest := s[i + 1..];
    var parts := Split(rest, sep);
    assert Split(s, sep) == [s[..i]] + parts;
    JoinHead(parts, sep);
    FieldAfter(s, sep, i, second);
  }

  lemma FieldAfter(s: string, sep: char, i: nat, second: string)
    requires i < |s|
    requires HasPrefix(s[i + 1..], second)
    requires |s[i + 1..]| == |second| || s[i + 1..][|second|] == sep
    ensures i + 1 + |second| <= |s|
    ensures s[i + 1..i + 1 + |second|] == second
    ensures i + 1 + |second| == |s| || s[i + 1 + |second|] == sep
  {
  }

  /** Joining one more piece appends a separator and that piece. */
  lemma {:induction false} JoinSnoc(parts: seq<string>, sep: char, last: string)
    requires |parts| >= 1
    ensures Join(parts + [last], sep) == Join(parts, sep) + [sep] + last
    decreases |parts|
  {
    if |parts| > 1 {
      assert (parts + [last])[1..] == parts[1..] + [last];
      JoinSnoc(parts[1..], sep, last);
    } else {
      assert parts + [last] == [parts[0], last];
    }
  }

  /** The first piece of a join is a prefix of it, followed by a separator or the end. */
  lemma JoinHead(parts: seq<string>, sep: char)
    requires |parts| >= 1
    ensures HasPrefix(Join(parts, sep), parts[0])
    ensures |parts| > 1 <==> |Join(parts, sep)| > |parts[0]|
    ensures |parts| > 1 ==> Join(parts, sep)[|parts[0]|] == sep
  {
  }

  /** Drops every '/' at the end of `p`. */
  function StripTrailingSlashes(p: string): (r: string)
    ensures HasPrefix(p, r)
    ensures r == "" || r[|r| - 1] != '/'
    ensures forall i :: |r| <= i < |p| ==> p[i] == '/'
  {
    if p != "" && p[|p| - 1] == '/' then StripTrailingSlashes(p[..|p| - 1]) else p
  }

  /** The text after the last '/' of `s`, or all of `s` when it has none. */
  function LastSegment(s: string): (r: string)
    ensures '/' !in r && HasSuffix(s, r)
    ensures |r| == |s| || s[|s| - |r| - 1] == '/'
  {
    if s == "" then ""
    else if s[|s| - 1] == '/' then ""
    else
      var r := LastSegment(s[..|s| - 1]) + [s[|s| - 1]];
      assert s[|s| - |r|..] == s[..|s| - 1][|s| - 1 - (|r| - 1)..] + [s[|s| - 1]];
      r
  }

  /**
   * path.Base: the last element of a slash-separated path, trailing slashes
   * removed; "." for the empty path and "/" for a path of slashes only.
   */
  function PathBase(p: string): (r: string)
    ensures r != ""
    ensures r == "/" || '/' !in r
    ensures '/' !in p && p != "" ==> r == p
  {
    if p == "" then "."
    else
      var stripped := StripTrailingSlashes(p);
      if stripped == "" then "/" else LastSegment(stripped)
  }

  /** The base of `dir/name` is `name` when `name` is a non-empty element. */
  lemma BaseOfJoined(dir: string, name: string)
    requires name != "" && '/' !in name
    ensures PathBase(dir + "/" + name) == name
  {
    var p := dir + "/" + name;
    assert p[|p| - 1] == name[|name| - 1];
    assert StripTrailingSlashes(p) == p;
    LastSegmentOfJoined(dir, name);
  }

  lemma {:induction false} LastSegmentOfJoined(dir: string, name: string)
    requires '/' !in name
    ensures LastSegment(dir + "/" + name) == name
  {
    var p := dir + "/" + name;
    if name != "" {
      var n := |name| - 1;
      assert p[|p| - 1] == name[n];
      assert p[..|p| - 1] == dir + "/" + name[..n];
      LastSegmentOfJoined(dir, name[..n]);
      assert name[..n] + [name[n]] == name;
    }
  }
}
