/** Resolving a dotted JSON path against the declared fields: the path itself,
    or else the longest declared ancestor. */
module FieldResolution {
  import opened Wrappers
  import opened Lbq

  /** Position of the last dot of s, or -1. */
  function LastDot(s: string): (i: int)
    ensures -1 <= i < |s|
    ensures i >= 0 ==> s[i] == '.'
    ensures forall j :: i < j < |s| ==> s[j] != '.'
  {
    if s == [] then -1
    else if s[|s| - 1] == '.' then |s| - 1
    else LastDot(s[..|s| - 1])
  }

  /** p is name itself or what precedes one of its dots. */
  predicate Ancestor(p: string, name: string) {
    p <= name && (|p| == |name| || name[|p|] == '.')
  }

  function Resolve(name: string, fields: Fields): Option<Field>
    decreases |name|
  {
    if name in fields then Some(fields[name])
    else if LastDot(name) == -1 then None
    else Resolve(name[..LastDot(name)], fields)
  }

  method GetFieldIfExists(name: string, fields: Fields) returns (r: Option<Field>)
    ensures r == Resolve(name, fields)
  {
    if name in fields {
      return Some(fields[name]);
    }
    var parent := name;
    while true
      invariant parent !in fields && Resolve(name, fields) == Resolve(parent, fields)
      invariant |parent| <= |name| && parent == name[..|parent|]
      decreases |parent|
    {
      var lastDot := LastDot(parent);
      if lastDot == -1 {
        return None;
      }
      assert parent[..lastDot] == name[..lastDot];
      parent := name[..lastDot];
      if parent in fields {
        return Some(fields[parent]);
      }
    }
  }

  /** Resolution finds a field exactly when some ancestor is declared, and then it
      is the field of the longest such ancestor. */
  lemma {:induction false} ResolveIsLongestAncestor(name: string, fields: Fields)
    ensures Resolve(name, fields).None? <==> forall p :: Ancestor(p, name) ==> p !in fields
    ensures Resolve(name, fields).Some? ==>
              exists p ::
                && Ancestor(p, name) && p in fields && Resolve(name, fields) == Some(fields[p])
                && forall p' :: Ancestor(p', name) && p' in fields ==> |p'| <= |p|
    decreases |name|
  {
    assert Ancestor(name, name);
    if name !in fields {
      var i := LastDot(name);
      if i == -1 {
        forall p | Ancestor(p, name) ensures p == name {}
      } else {
        var up := name[..i];
        ResolveIsLongestAncestor(up, fields);
        forall p ensures Ancestor(p, name) <==> p == name || Ancestor(p, up) {
          if Ancestor(p, name) && p != name {
            assert name[|p|] == '.' && |p| <= i;
          }
        }
      }
    }
  }

  /** A declared path resolves to its own field. */
  lemma ExactPath(name: string, fields: Fields)
    requires name in fields
    ensures Resolve(name, fields) == Some(fields[name])
  {}

  /** Below an undeclared suffix only the ancestor's field is seen: the suffix is lost. */
  lemma SuffixIsLost(name: string, suffix: string, fields: Fields)
    requires name in fields && name + "." + suffix !in fields
    requires forall i :: 0 <= i < |suffix| ==> suffix[i] != '.'
    ensures Resolve(name + "." + suffix, fields) == Some(fields[name])
  {
    var path := name + "." + suffix;
    assert path[|name|] == '.';
    assert forall j :: |name| < j < |path| ==> path[j] == suffix[j - |name| - 1];
    assert LastDot(path) == |name|;
    assert path[..|name|] == name;
  }
}
