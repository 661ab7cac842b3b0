/** Cutting strings: white space at the ends, and separators. */
module Strings {
  /** Unicode white space. */
  predicate IsSpace(c: char) {
    || '\t' <= c <= '\r' || c == ' ' || c == '\U{85}' || c == '\U{A0}' || c == '\U{1680}'
    || '\U{2000}' <= c <= '\U{200A}' || c == '\U{2028}' || c == '\U{2029}' || c == '\U{202F}'
    || c == '\U{205F}' || c == '\U{3000}'
  }

  predicate Tight(s: string) { s != [] ==> !IsSpace(s[0]) && !IsSpace(s[|s| - 1]) }

  function TrimSpace(s: string): (r: string)
    ensures Tight(r)
    ensures Tight(s) ==> r == s
    decreases |s|
  {
    if s == [] then s
    else if IsSpace(s[0]) then TrimSpace(s[1..])
    else if IsSpace(s[|s| - 1]) then TrimSpace(s[..|s| - 1])
    else s
  }

  /** Trimming takes away white space at the ends and nothing else. */
  lemma {:induction false} OnlySpaceIsTrimmed(s: string) returns (from: nat, to: nat)
    ensures from <= to <= |s| && TrimSpace(s) == s[from..to]
    ensures (forall i | 0 <= i < from :: IsSpace(s[i])) && forall i | to <= i < |s| :: IsSpace(s[i])
    decreases |s|
  {
    from, to := 0, |s|;
    if s != [] {
      if IsSpace(s[0]) {
        from, to := OnlySpaceIsTrimmed(s[1..]);
        assert s[1..][from..to] == s[from + 1..to + 1];
        from, to := from + 1, to + 1;
      } else if IsSpace(s[|s| - 1]) {
        from, to := OnlySpaceIsTrimmed(s[..|s| - 1]);
        assert s[..|s| - 1][from..to] == s[from..to];
      }
    }
  }

  function Split(s: string, sep: char): (parts: seq<string>)
    ensures parts != []
    ensures forall i :: 0 <= i < |parts| ==> sep !in parts[i]
    decreases s
  {
    if s == [] then [""]
    else
      var front := Split(s[..|s| - 1], sep);
      if s[|s| - 1] == sep then front + [""] else front[..|front| - 1] + [front[|front| - 1] + [s[|s| - 1]]]
  }

  function Join(parts: seq<string>, sep: char): string
    decreases parts
  {
    if parts == [] then ""
    else if |parts| == 1 then parts[0]
    else Join(parts[..|parts| - 1], sep) + [sep] + parts[|parts| - 1]
  }

  /** Splitting loses nothing. */
  lemma {:induction false} JoinOfSplit(s: string, sep: char)
    ensures Join(Split(s, sep), sep) == s
    decreases s
  {
    if s != [] {
      var (front, last) := (Split(s[..|s| - 1], sep), s[|s| - 1]);
      JoinOfSplit(s[..|s| - 1], sep);
      assert s == s[..|s| - 1] + [last];
      if last == sep {
        assert (front + [""])[..|front|] == front;
      } else {
        var end := |front| - 1;
        var parts := front[..end] + [front[end] + [last]];
        assert parts[..end] == front[..end];
      }
    }
  }

  /** There is no other way to cut a string at its separators. */
  lemma {:induction false} SplitOfJoin(parts: seq<string>, sep: char)
    requires parts != [] && forall i :: 0 <= i < |parts| ==> sep !in parts[i]
    ensures Split(Join(parts, sep), sep) == parts
    decreases |parts|, if parts == [] then 0 else |parts[|parts| - 1]|
  {
    var front, last := parts[..|parts| - 1], parts[|parts| - 1];
    assert parts == front + [last];
    if last != "" {
      var shorter := front + [last[..|last| - 1]];
      SplitOfJoin(shorter, sep);
      JoinGrows(front, last, sep);
      SplitGrows(Join(shorter, sep), last[|last| - 1], sep);
      assert shorter[..|front|] == front && last[..|last| - 1] + [last[|last| - 1]] == last;
    } else if front != [] {
      SplitOfJoin(front, sep);
      assert Join(parts, sep)[..|Join(parts, sep)| - 1] == Join(front, sep);
    }
  }

  lemma SplitGrows(s: string, c: char, sep: char)
    requires c != sep
    ensures var (parts, end) := (Split(s, sep), |Split(s, sep)| - 1);
            Split(s + [c], sep) == parts[..end] + [parts[end] + [c]]
  {
    assert (s + [c])[..|s|] == s;
  }

  lemma JoinGrows(front: seq<string>, last: string, sep: char)
    requires last != ""
    ensures Join(front + [last], sep) == Join(front + [last[..|last| - 1]], sep) + [last[|last| - 1]]
  {
    assert (front + [last])[..|front|] == front == (front + [last[..|last| - 1]])[..|front|];
    assert last == last[..|last| - 1] + [last[|last| - 1]];
  }
}
