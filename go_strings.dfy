/** The parts of Go's `strings` package that the namespace codec relies on:
    `Index`, `HasPrefix`, `Split` and `Join`, for a NON-EMPTY separator.
    `Split` cuts at the leftmost occurrence of the separator, then continues
    after it, so occurrences are non-overlapping and taken left to right. */
module GoStrings {

  /** `sep` occurs in `s` starting at position `j`. */
  predicate OccursAt(s: string, sep: string, j: int) {
    0 <= j && j + |sep| <= |s| && s[j..j + |sep|] == sep
  }

  /** `sep` occurs nowhere in `s`. */
  predicate Free(s: string, sep: string) {
    forall j :: 0 <= j <= |s| ==> !OccursAt(s, sep, j)
  }

  /** `p` can stand in front of a separator and be cut off again:
      the first occurrence of `sep` in `p + sep` is the appended one.
      This excludes `sep` inside `p` and also a match that straddles the
      joint, as with `p = "a:"` and `sep = "::"`. */
  predicate Clean(p: string, sep: string) {
    forall j :: 0 <= j < |p| ==> !OccursAt(p + sep, sep, j)
  }

  /** No character of `s` is one of `chars`. */
  predicate Avoids(s: string, chars: string) {
    forall i :: 0 <= i < |s| ==> s[i] !in chars
  }

  /** Go's `strings.Index`: the position of the first occurrence of `sep`
      in `s`, or -1 when there is none. */
  function Index(s: string, sep: string): (r: int)
    requires |sep| > 0
    ensures r == -1 || OccursAt(s, sep, r)
    ensures r == -1 <==> Free(s, sep)
    ensures forall j :: 0 <= j < r ==> !OccursAt(s, sep, j)
    decreases |s|
  {
    if |s| < |sep| then -1
    else if s[..|sep|] == sep then 0
    else
      var i := Index(s[1..], sep);
      ShiftOccurrence(s, sep);
      if i < 0 then -1 else i + 1
  }

  /** An occurrence in `s[1..]` is an occurrence in `s` one place later. */
  lemma ShiftOccurrence(s: string, sep: string)
    requires |s| >= 1
    ensures forall j :: 1 <= j <= |s| ==> (OccursAt(s, sep, j) <==> OccursAt(s[1..], sep, j - 1))
  {
    forall j | 1 <= j <= |s|
      ensures OccursAt(s, sep, j) <==> OccursAt(s[1..], sep, j - 1)
    {
      if j + |sep| <= |s| {
        assert s[1..][j - 1..j - 1 + |sep|] == s[j..j + |sep|];
      }
    }
  }

  /** Go's `strings.HasPrefix`. */
  predicate HasPrefix(s: string, prefix: string) {
    |prefix| <= |s| && s[..|prefix|] == prefix
  }

  /** Go's `strings.Join`: the parts with `sep` between consecutive ones. */
  function Join(parts: seq<string>, sep: string): string {
    if |parts| == 0 then ""
    else if |parts| == 1 then parts[0]
    else parts[0] + sep + Join(parts[1..], sep)
  }

  /** Go's `strings.Split` with a non-empty separator. The result is never
      empty, joining it back gives the input, and it has a single part
      exactly when the separator does not occur. */
  function Split(s: string, sep: string): (parts: seq<string>)
    requires |sep| > 0
    ensures |parts| >= 1
    ensures Join(parts, sep) == s
    ensures |parts| == 1 <==> Free(s, sep)
    decreases |s|
  {
    var i := Index(s, sep);
    if i < 0 then [s]
    else
      var rest := Split(s[i + |sep|..], sep);
      CutAt(s, sep, i);
      assert ([s[..i]] + rest)[1..] == rest;
      [s[..i]] + rest
  }

  /** Cutting out an occurrence of the separator leaves what surrounds it. */
  lemma CutAt(s: string, sep: string, i: int)
    requires OccursAt(s, sep, i)
    ensures s == s[..i] + sep + s[i + |sep|..]
  {
    assert s == s[..i] + s[i..i + |sep|] + s[i + |sep|..];
  }

  /** Appending one more part adds the separator and that part. */
  lemma {:induction false} JoinAppend(parts: seq<string>, x: string, sep: string)
    requires |parts| >= 1
    ensures Join(parts + [x], sep) == Join(parts, sep) + sep + x
    decreases |parts|
  {
    if |parts| > 1 {
      assert (parts + [x])[1..] == parts[1..] + [x];
      JoinAppend(parts[1..], x, sep);
    }
  }

  /** Every character of a join comes from a part or from the separator. */
  lemma {:induction false} JoinAvoids(parts: seq<string>, sep: string, chars: string)
    requires forall i :: 0 <= i < |parts| ==> Avoids(parts[i], chars)
    requires Avoids(sep, chars)
    ensures Avoids(Join(parts, sep), chars)
    decreases |parts|
  {
    if |parts| > 1 {
      JoinAvoids(parts[1..], sep, chars);
      var s := Join(parts, sep);
      var tail := Join(parts[1..], sep);
      forall i | 0 <= i < |s| ensures s[i] !in chars {
        if i < |parts[0]| {
          assert s[i] == parts[0][i];
        } else if i < |parts[0]| + |sep| {
          assert s[i] == sep[i - |parts[0]|];
        } else {
          assert s[i] == tail[i - |parts[0]| - |sep|];
        }
      }
    }
  }

  /** A string with none of the separator's characters is clean and free. */
  lemma AvoidsIsClean(p: string, sep: string)
    requires |sep| > 0
    requires Avoids(p, sep)
    ensures Clean(p, sep) && Free(p, sep)
  {
    assert sep[0] in sep;
    forall j | 0 <= j < |p| ensures !OccursAt(p + sep, sep, j) {
      assert (p + sep)[j] == p[j] && p[j] !in sep;
      if j + |sep| <= |p + sep| {
        assert (p + sep)[j..j + |sep|][0] == p[j];
      }
    }
    forall j | 0 <= j <= |p| ensures !OccursAt(p, sep, j) {
      if j + |sep| <= |p| {
        assert p[j..j + |sep|][0] == p[j] && p[j] !in sep;
      }
    }
  }

  /** The first occurrence of `sep` in `p + sep + rest` is the one after `p`
      exactly when `p` is clean. */
  lemma IndexAfterPart(p: string, sep: string, rest: string)
    requires |sep| > 0
    ensures Clean(p, sep) <==> Index(p + sep + rest, sep) == |p|
  {
    var x := p + sep + rest;
    assert x[|p|..|p| + |sep|] == sep;
    assert OccursAt(x, sep, |p|);
    forall j | 0 <= j < |p|
      ensures OccursAt(x, sep, j) <==> OccursAt(p + sep, sep, j)
    {
      assert x[j..j + |sep|] == (p + sep)[j..j + |sep|];
    }
  }

  /** The parts of a join can be recovered by splitting. */
  ghost predicate SplitsBack(parts: seq<string>, sep: string) {
    |parts| >= 1 &&
    (forall i :: 0 <= i < |parts| - 1 ==> Clean(parts[i], sep)) &&
    Free(parts[|parts| - 1], sep)
  }

  /** Splitting `p + sep + rest` cuts off `p` first exactly when `p` is clean. */
  lemma SplitAfterPart(p: string, sep: string, rest: string)
    requires |sep| > 0
    ensures Clean(p, sep) ==> Split(p + sep + rest, sep) == [p] + Split(rest, sep)
    ensures !Clean(p, sep) ==> Split(p + sep + rest, sep)[0] != p
  {
    var x := p + sep + rest;
    IndexAfterPart(p, sep, rest);
    assert x[|p|..|p| + |sep|] == sep;
    assert OccursAt(x, sep, |p|);
    var i := Index(x, sep);
    assert Split(x, sep) == [x[..i]] + Split(x[i + |sep|..], sep);
    if i == |p| {
      assert x[..i] == p;
      assert x[i + |sep|..] == rest;
    }
  }

  /** `SplitsBack` peels off its first part. */
  lemma SplitsBackCons(parts: seq<string>, sep: string)
    requires |parts| > 1
    ensures SplitsBack(parts, sep) <==> Clean(parts[0], sep) && SplitsBack(parts[1..], sep)
  {
    var rest := parts[1..];
    if Clean(parts[0], sep) && SplitsBack(rest, sep) {
      forall k | 0 <= k < |parts| - 1 ensures Clean(parts[k], sep) {
        if k > 0 { assert parts[k] == rest[k - 1]; }
      }
    }
    if SplitsBack(parts, sep) {
      forall k | 0 <= k < |rest| - 1 ensures Clean(rest[k], sep) {
        assert rest[k] == parts[k + 1];
      }
    }
  }

  /** Splitting a join gives back its parts if and only if every part but the
      last is clean and the last one does not contain the separator. */
  lemma {:induction false} SplitJoin(parts: seq<string>, sep: string)
    requires |sep| > 0 && |parts| >= 1
    ensures Split(Join(parts, sep), sep) == parts <==> SplitsBack(parts, sep)
    decreases |parts|
  {
    if |parts| > 1 {
      var p, rest := parts[0], parts[1..];
      assert parts == [p] + rest;
      SplitAfterPart(p, sep, Join(rest, sep));
      SplitsBackCons(parts, sep);
      SplitJoin(rest, sep);
    }
  }

  /** Pieces that avoid the separator's characters are split back out of
      their join: the special case of `SplitJoin` that needs no reasoning
      about occurrences. */
  lemma SplitPieces(parts: seq<string>, sep: string)
    requires |sep| > 0 && |parts| >= 1
    requires forall i :: 0 <= i < |parts| ==> Avoids(parts[i], sep)
    ensures Split(Join(parts, sep), sep) == parts
  {
    forall i | 0 <= i < |parts| ensures Clean(parts[i], sep) && Free(parts[i], sep) {
      AvoidsIsClean(parts[i], sep);
    }
    SplitJoin(parts, sep);
  }

  /** One mismatching character rules out an occurrence. */
  lemma NotAt(s: string, sep: string, j: int, k: int)
    requires 0 <= k < |sep|
    requires 0 <= j + k < |s| ==> s[j + k] != sep[k]
    ensures !OccursAt(s, sep, j)
  {
    if 0 <= j && j + |sep| <= |s| {
      assert s[j..j + |sep|][k] == s[j + k];
    }
  }

  /** Joining a first part onto a non-empty rest. */
  lemma JoinCons(x: string, rest: seq<string>, sep: string)
    requires |rest| >= 1
    ensures Join([x] + rest, sep) == x + sep + Join(rest, sep)
  {
    assert ([x] + rest)[1..] == rest;
  }

  /** A string without the separator is its own single part. */
  lemma SplitFree(s: string, sep: string)
    requires |sep| > 0 && Free(s, sep)
    ensures Split(s, sep) == [s]
  {
  }
}
