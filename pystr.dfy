/** The Python string operations load_trc relies on: slicing with negative
    bounds and str.split with a separator, with the join that undoes it. */
module PyStr {

  /** Python's clamping of one slice bound `b` against a sequence of length `len`. */
  function SliceBound(b: int, len: nat): (r: nat)
    ensures r <= len
    ensures b >= 0 ==> r == if b <= len then b else len
    ensures b < 0 ==> r == if -b <= len then len + b else 0
  {
    if b < 0 then (if len + b < 0 then 0 else len + b)
    else if b > len then len else b
  }

  /** `s[lo:hi]` as Python evaluates it (step 1): out-of-range bounds are clamped
      and a slice whose start is not before its end is empty. */
  function Slice<T>(s: seq<T>, lo: int, hi: int): seq<T>
  {
    var a := SliceBound(lo, |s|);
    var b := SliceBound(hi, |s|);
    if a < b then s[a..b] else []
  }

  predicate StartsWith(s: string, p: string)
  {
    |p| <= |s| && s[..|p|] == p
  }

  /** Python's `sub in s` for strings. */
  predicate Contains(s: string, sub: string)
  {
    exists i :: 0 <= i <= |s| - |sub| && StartsWith(s[i..], sub)
  }

  predicate EndsWith(s: string, suffix: string)
  {
    |suffix| <= |s| && s[|s| - |suffix|..] == suffix
  }

  /** Python's `s.split(sep)` for a non-empty separator: scanning from the left,
      every occurrence of `sep` that does not overlap an earlier one ends a piece. */
  function Split(s: string, sep: string): (r: seq<string>)
    requires |sep| > 0
    ensures |r| >= 1
    decreases |s|
  {
    if |s| < |sep| then [s]
    else if StartsWith(s, sep) then [""] + Split(s[|sep|..], sep)
    else
      var rest := Split(s[1..], sep);
      [[s[0]] + rest[0]] + rest[1..]
  }

  /** Python's `sep.join(parts)`. */
  function Join(parts: seq<string>, sep: string): string
  {
    if |parts| == 0 then ""
    else if |parts| == 1 then parts[0]
    else parts[0] + sep + Join(parts[1..], sep)
  }

  /** Splitting and joining with the same separator gives back the string. */
  lemma {:induction false} JoinSplit(s: string, sep: string)
    requires |sep| > 0
    ensures Join(Split(s, sep), sep) == s
    decreases |s|
  {
    if |s| < |sep| {
    } else if StartsWith(s, sep) {
      var rest := Split(s[|sep|..], sep);
      JoinSplit(s[|sep|..], sep);
      assert Split(s, sep) == [""] + rest;
      assert ([""] + rest)[1..] == rest;
      assert s == sep + s[|sep|..];
    } else {
      JoinSplit(s[1..], sep);
      JoinSplitStep(s, sep);
    }
  }

  /** The inductive step of JoinSplit, when `s` does not start with `sep`: the first
      piece is `s[0]` followed by the first piece of `s[1..]`. */
  lemma JoinSplitStep(s: string, sep: string)
    requires |sep| > 0 && |s| >= |sep| && !StartsWith(s, sep)
    requires Join(Split(s[1..], sep), sep) == s[1..]
    ensures Join(Split(s, sep), sep) == s
  {
    var rest := Split(s[1..], sep);
    SplitUnfoldCons(s, sep);
    JoinConsFirst(s[0], rest, sep);
    assert s == [s[0]] + s[1..];
  }

  /** One unfolding of Split when `s` does not start with `sep`. */
  lemma SplitUnfoldCons(s: string, sep: string)
    requires |sep| > 0 && |s| >= |sep| && !StartsWith(s, sep)
    ensures Split(s, sep) == [[s[0]] + Split(s[1..], sep)[0]] + Split(s[1..], sep)[1..]
  {
  }

  /** Prefixing the first piece with `c` prefixes the join with `c`. */
  lemma JoinConsFirst(c: char, parts: seq<string>, sep: string)
    requires |parts| >= 1
    ensures Join([[c] + parts[0]] + parts[1..], sep) == [c] + Join(parts, sep)
  {
    var q := [[c] + parts[0]] + parts[1..];
    assert q[0] == [c] + parts[0];
    assert q[1..] == parts[1..];
    if |parts| > 1 {
      assert Join(q, sep) == q[0] + sep + Join(q[1..], sep);
      assert Join(parts, sep) == parts[0] + sep + Join(parts[1..], sep);
    }
  }

  /** The leftmost-occurrence reading of `Split(s, sep)`: the first piece is the part of
      `s` before the first occurrence of `sep`; if there is none it is all of `s`,
      otherwise the remaining pieces are the split of what follows that occurrence. */
  predicate SplitsAtFirstOccurrence(s: string, sep: string)
    requires |sep| > 0
  {
    var r := Split(s, sep);
    StartsWith(s, r[0]) &&
    (forall i :: 0 <= i < |r[0]| ==> !StartsWith(s[i..], sep)) &&
    (|r| == 1 ==> r[0] == s && !Contains(s, sep)) &&
    (|r| > 1 ==> StartsWith(s[|r[0]|..], sep) && r[1..] == Split(s[|r[0]| + |sep|..], sep))
  }

  /** Split agrees with the leftmost-occurrence reading on every string. */
  lemma {:induction false} SplitFirstPiece(s: string, sep: string)
    requires |sep| > 0
    ensures SplitsAtFirstOccurrence(s, sep)
    decreases |s|
  {
    if |s| < |sep| {
      assert Split(s, sep) == [s];
    } else if StartsWith(s, sep) {
      assert Split(s, sep) == [""] + Split(s[|sep|..], sep);
    } else {
      SplitFirstPiece(s[1..], sep);
      SplitFirstPieceStep(s, sep);
    }
  }

  /** The inductive step of SplitFirstPiece, when `s` does not start with `sep`: the
      first piece grows by `s[0]` and the other pieces are those of `s[1..]`. */
  lemma SplitFirstPieceStep(s: string, sep: string)
    requires |sep| > 0 && |s| >= |sep| && !StartsWith(s, sep)
    requires SplitsAtFirstOccurrence(s[1..], sep)
    ensures SplitsAtFirstOccurrence(s, sep)
  {
    var r := Split(s, sep);
    var rest := Split(s[1..], sep);
    var p := rest[0];
    assert r == [[s[0]] + p] + rest[1..];
    FirstPieceGrows(s, sep, p);
    if |r| > 1 {
      LaterPiecesShift(s, p, sep, rest[1..]);
    }
  }

  lemma FirstPieceGrows(s: string, sep: string, p: string)
    requires |sep| > 0 && |s| >= |sep| && !StartsWith(s, sep)
    requires StartsWith(s[1..], p) && forall i :: 0 <= i < |p| ==> !StartsWith(s[1..][i..], sep)
    requires p == s[1..] ==> !Contains(s[1..], sep)
    ensures StartsWith(s, [s[0]] + p)
    ensures forall i :: 0 <= i < |p| + 1 ==> !StartsWith(s[i..], sep)
    ensures [s[0]] + p == s ==> !Contains(s, sep)
  {
    assert s == [s[0]] + s[1..];
    forall i | 0 < i < |p| + 1
      ensures !StartsWith(s[i..], sep)
    {
      assert s[i..] == s[1..][i - 1..];
    }
  }

  lemma LaterPiecesShift(s: string, p: string, sep: string, later: seq<string>)
    requires |sep| > 0 && 1 + |p| + |sep| <= |s|
    requires StartsWith(s[1..][|p|..], sep) && later == Split(s[1..][|p| + |sep|..], sep)
    ensures StartsWith(s[1 + |p|..], sep) && later == Split(s[1 + |p| + |sep|..], sep)
  {
    assert s[1 + |p|..] == s[1..][|p|..];
    assert s[1 + |p| + |sep|..] == s[1..][|p| + |sep|..];
  }

  /** No piece of a split contains the separator. */
  lemma {:induction false} SplitPiecesFree(s: string, sep: string)
    requires |sep| > 0
    ensures forall p :: p in Split(s, sep) ==> !Contains(p, sep)
    decreases |s|
  {
    var r := Split(s, sep);
    SplitFirstPiece(s, sep);
    forall i | 0 <= i <= |r[0]| - |sep|
      ensures !StartsWith(r[0][i..], sep)
    {
      assert r[0] == s[..|r[0]|];
      assert r[0][i..][..|sep|] == s[i..][..|sep|];
      assert !StartsWith(s[i..], sep);
    }
    if |r| > 1 {
      var tail := s[|r[0]| + |sep|..];
      SplitPiecesFree(tail, sep);
      forall p | p in r
        ensures !Contains(p, sep)
      {
        if p != r[0] {
          var j :| 0 <= j < |r| && r[j] == p;
          assert r[1..][j - 1] == p;
        }
      }
    }
  }
}
