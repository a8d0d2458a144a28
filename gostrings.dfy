/** The pieces of Go's strings and path packages that importer/importer.go relies on, written
    out so that their edge cases are part of the model: strings.Split, strings.Join,
    strings.Replace with n = 1 and an empty replacement, path.Ext and path.Join (whose final
    lexical clean-up, path.Clean, is kept as a parameter). */
module GoStrings {
  import opened Wrappers

  /** strings.Join: the parts with sep between neighbours; "" for no parts. */
  function JoinWith(parts: seq<string>, sep: char): string
  {
    if parts == [] then ""
    else if |parts| == 1 then parts[0]
    else parts[0] + [sep] + JoinWith(parts[1..], sep)
  }

  /** strings.Split with a one-character separator: always at least one part (Split("") is
      [""]), no part holds the separator, and joining the parts gives back s. */
  function Split(s: string, sep: char): (parts: seq<string>)
    ensures |parts| >= 1
    ensures forall i :: 0 <= i < |parts| ==> sep !in parts[i]
    ensures JoinWith(parts, sep) == s
    decreases |s|
  {
    if s == [] then [""]
    else
      var rest := Split(s[1..], sep);
      if s[0] == sep then
        assert ([""] + rest)[1..] == rest;
        [""] + rest
      else
        assert ([[s[0]] + rest[0]] + rest[1..])[1..] == rest[1..];
        assert s == [s[0]] + s[1..];
        [[s[0]] + rest[0]] + rest[1..]
  }

  /** sub occurs in s starting at index i. */
  predicate OccursAt(s: string, sub: string, i: nat)
  {
    i + |sub| <= |s| && s[i..i + |sub|] == sub
  }

  /** The first occurrence of sub in s at or after index from (strings.Index when from = 0). */
  function IndexFrom(s: string, sub: string, from: nat): (r: Option<nat>)
    requires from <= |s|
    ensures r.Some? ==>
      from <= r.value && OccursAt(s, sub, r.value) && (forall j :: from <= j < r.value ==> !OccursAt(s, sub, j))
    ensures r.None? ==> forall j :: from <= j <= |s| ==> !OccursAt(s, sub, j)
    decreases |s| - from
  {
    if OccursAt(s, sub, from) then Some(from)
    else if from == |s| then None
    else IndexFrom(s, sub, from + 1)
  }

  /** strings.Replace(s, sub, "", 1): deletes the first occurrence of sub, if any. An empty
      sub leaves s as it is (Replace inserts the empty replacement once, at the front). */
  function RemoveFirst(s: string, sub: string): (r: string)
    ensures |r| <= |s|
    ensures sub == [] || (forall j :: 0 <= j <= |s| ==> !OccursAt(s, sub, j)) ==> r == s
    ensures forall i: nat :: sub != [] && OccursAt(s, sub, i) && (forall j :: 0 <= j < i ==> !OccursAt(s, sub, j)) ==>
      r == s[..i] + s[i + |sub|..]
  {
    if sub == [] then s
    else match IndexFrom(s, sub, 0)
      case None => s
      case Some(i) => s[..i] + s[i + |sub|..]
  }

  /** s ends with suffix (strings.HasSuffix). */
  predicate HasSuffix(s: string, suffix: string)
  {
    |suffix| <= |s| && s[|s| - |suffix|..] == suffix
  }

  /** The scan of path.Ext over s[..n], from the right, given that s[n..] holds neither '.'
      nor '/': it stops at a '/' and answers the suffix starting at the first '.' it meets. */
  function ExtScan(s: string, n: nat): (e: string)
    requires n <= |s|
    requires forall k :: n <= k < |s| ==> s[k] != '.' && s[k] != '/'
    ensures e == [] || (HasSuffix(s, e) && e[0] == '.' && '.' !in e[1..] && '/' !in e)
    ensures e == [] <==> forall k :: 0 <= k < n && s[k] == '.' ==> exists m :: k < m < n && s[m] == '/'
    decreases n
  {
    if n == 0 then []
    else if s[n - 1] == '/' then []
    else if s[n - 1] == '.' then s[n - 1..]
    else ExtScan(s, n - 1)
  }

  /** path.Ext: the extension of the last element of a slash-separated path, from its last
      dot on; "" when that element has no dot. */
  function Ext(s: string): (e: string)
    ensures e == [] || (HasSuffix(s, e) && e[0] == '.' && '.' !in e[1..] && '/' !in e)
    ensures e == [] <==> forall k :: 0 <= k < |s| && s[k] == '.' ==> exists m :: k < m < |s| && s[m] == '/'
  {
    ExtScan(s, |s|)
  }

  /** The filter of importer.go:72: path.Ext(name) == ".go" holds exactly when name ends
      in ".go". */
  lemma ExtGoIffSuffix(name: string)
    ensures Ext(name) == ".go" <==> HasSuffix(name, ".go")
  {
    if HasSuffix(name, ".go") {
      var n := |name|;
      assert name[n - 3..] == ".go";
      assert name[n - 1] == 'o' && name[n - 2] == 'g' && name[n - 3] == '.';
      assert ExtScan(name, n) == ExtScan(name, n - 1) == ExtScan(name, n - 2) == name[n - 3..];
    }
  }

  /** The elements from the first non-empty one on. */
  function DropLeadingEmpty(elems: seq<string>): (rest: seq<string>)
    ensures |rest| <= |elems| && rest == elems[|elems| - |rest|..]
    ensures forall i :: 0 <= i < |elems| - |rest| ==> elems[i] == ""
    ensures rest == [] || rest[0] != ""
  {
    if elems == [] then []
    else if elems[0] == "" then DropLeadingEmpty(elems[1..])
    else elems
  }

  /** path.Join, with path.Clean as the parameter clean: "" when every element is empty,
      otherwise the elements from the first non-empty one on, joined by '/', then cleaned. */
  function PathJoin(clean: string -> string, elems: seq<string>): (r: string)
    ensures (forall i :: 0 <= i < |elems| ==> elems[i] == "") ==> r == ""
  {
    var rest := DropLeadingEmpty(elems);
    if rest == [] then "" else clean(JoinWith(rest, '/'))
  }

  /** A string that starts with sub loses exactly that leading copy (for an empty sub,
      there is nothing to lose). */
  lemma RemoveFirstPrefix(sub: string, rest: string)
    ensures RemoveFirst(sub + rest, sub) == rest
  {
    var s := sub + rest;
    if sub == [] {
      assert s == rest;
    } else {
      assert OccursAt(s, sub, 0);
      assert s[|sub|..] == rest;
    }
  }
}
