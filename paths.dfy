/**
 * Request paths: `pathname.split('/')`, the non-empty segments the edge functions read the
 * resource id from, and the id rule shared by the appointment and patient endpoints.
 */
module Paths {
  import opened Wrappers
  import opened Seqs

  /** `s.split(sep)`: the pieces between separators, empty ones included. */
  function Split(s: string, sep: char): (parts: seq<string>)
    ensures |parts| >= 1
    ensures forall i :: 0 <= i < |parts| ==> sep !in parts[i]
  {
    if s == [] then [""]
    else
      var init := Split(s[..|s| - 1], sep);
      var c := s[|s| - 1];
      if c == sep then init + [""]
      else init[..|init| - 1] + [init[|init| - 1] + [c]]
  }

  /** `parts.join(sep)`. */
  function Join(parts: seq<string>, sep: char): string
  {
    if |parts| == 0 then ""
    else if |parts| == 1 then parts[0]
    else Join(parts[..|parts| - 1], sep) + [sep] + parts[|parts| - 1]
  }

  /** Splitting loses nothing: joining the pieces again gives the text back. */
  lemma {:induction false} JoinSplit(s: string, sep: char)
    ensures Join(Split(s, sep), sep) == s
  {
    if s != [] {
      var t := s[..|s| - 1];
      var c := s[|s| - 1];
      JoinSplit(t, sep);
      var init := Split(t, sep);
      assert s == t + [c];
      if c == sep {
        assert Split(s, sep) == init + [""];
        assert (init + [""])[..|init|] == init;
      } else {
        var r := Split(s, sep);
        assert r == init[..|init| - 1] + [init[|init| - 1] + [c]];
        if |init| == 1 {
          assert Join(r, sep) == init[0] + [c];
        } else {
          assert r[..|r| - 1] == init[..|init| - 1];
          assert Join(init, sep) == Join(init[..|init| - 1], sep) + [sep] + init[|init| - 1];
        }
      }
    }
  }

  /** A separator followed by separator-free text ends the split with exactly that text. */
  lemma {:induction false} SplitLastPiece(p: string, sep: char, x: string)
    requires sep !in x
    ensures Split(p + [sep] + x, sep) == Split(p, sep) + [x]
    decreases |x|
  {
    var s := p + [sep] + x;
    if x == [] {
      assert s[..|s| - 1] == p;
    } else {
      var x' := x[..|x| - 1];
      var c := x[|x| - 1];
      assert c in x;
      assert sep !in x' by { assert forall k :: 0 <= k < |x'| ==> x'[k] == x[k]; }
      SplitLastPiece(p, sep, x');
      assert s[..|s| - 1] == p + [sep] + x';
      assert x' + [c] == x;
    }
  }

  /** Text without the separator splits into itself alone. */
  lemma {:induction false} SplitWithoutSeparator(s: string, sep: char)
    requires sep !in s
    ensures Split(s, sep) == [s]
  {
    if s != [] {
      var t := s[..|s| - 1];
      assert sep !in t by { assert forall k :: 0 <= k < |t| ==> t[k] == s[k]; }
      SplitWithoutSeparator(t, sep);
      assert s == t + [s[|s| - 1]];
    }
  }

  predicate NonEmpty(s: string)
  {
    s != ""
  }

  /** `pathname.split('/').filter(Boolean)`. */
  function Segments(path: string): (r: seq<string>)
    ensures forall i :: 0 <= i < |r| ==> r[i] != "" && '/' !in r[i]
  {
    Filter(Split(path, '/'), NonEmpty)
  }

  /** `parts[parts.length - 1]`: undefined for a path with no segments. */
  function LastSegment(path: string): Option<string>
  {
    var segs := Segments(path);
    if |segs| == 0 then None else Some(segs[|segs| - 1])
  }

  /**
   * The id of the resource a request names: the last non-empty segment, unless that
   * segment is the function's own name (the collection itself).
   */
  function ResourceId(path: string, functionName: string): (r: Option<string>)
    ensures r.Some? ==> r.value != "" && r.value != functionName && '/' !in r.value
  {
    match LastSegment(path)
    case None => None
    case Some(x) => if x == functionName then None else Some(x)
  }

  /** A path ending in `/x` names the resource `x`; a path ending in the function name names none. */
  lemma ResourceIdIsLastSegment(p: string, x: string, functionName: string)
    requires x != "" && '/' !in x
    ensures ResourceId(p + "/" + x, functionName) == if x == functionName then None else Some(x)
  {
    SplitLastPiece(p, '/', x);
    FilterConcat(Split(p, '/'), [x], NonEmpty);
  }

  /** `pathname.split('/').pop()`: the last piece, empty after a trailing slash. */
  function LastPiece(path: string): (r: string)
    ensures '/' !in r
  {
    var parts := Split(path, '/');
    parts[|parts| - 1]
  }

  /** After a trailing slash the last piece is empty; otherwise it is the last segment. */
  lemma LastPieceOfPath(p: string, x: string)
    requires '/' !in x
    ensures LastPiece(p + "/" + x) == x
  {
    SplitLastPiece(p, '/', x);
  }
}
