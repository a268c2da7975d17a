/**
 * String operations of JavaScript that the modelled code relies on:
 * `indexOf`, `split` with a non-empty string separator, and the joining
 * that undoes a split.
 */
module Text {
  import opened Wrappers

  /** `sep` occurs in `s` starting at index `i`. */
  predicate OccursAt(s: string, sep: string, i: int)
  {
    0 <= i && i + |sep| <= |s| && s[i..i + |sep|] == sep
  }

  predicate Occurs(s: string, sep: string)
  {
    exists i | 0 <= i <= |s| :: OccursAt(s, sep, i)
  }

  /** First occurrence of `sep` in `s` at or after `from` (`s.indexOf(sep, from)`). */
  function IndexFrom(s: string, sep: string, from: nat): (r: Option<nat>)
    requires sep != ""
    ensures r.Some? ==> from <= r.value && OccursAt(s, sep, r.value)
    ensures r.Some? ==> forall j :: from <= j < r.value ==> !OccursAt(s, sep, j)
    ensures r.None? ==> forall j :: from <= j ==> !OccursAt(s, sep, j)
    decreases |s| - from
  {
    if from + |sep| > |s| then None
    else if s[from..from + |sep|] == sep then Some(from)
    else IndexFrom(s, sep, from + 1)
  }

  /** First occurrence of `sep` in `s` (`s.indexOf(sep)`, with -1 as `None`). */
  function IndexOf(s: string, sep: string): (r: Option<nat>)
    requires sep != ""
    ensures r.Some? <==> Occurs(s, sep)
    ensures r.Some? ==> OccursAt(s, sep, r.value) && forall j :: 0 <= j < r.value ==> !OccursAt(s, sep, j)
  {
    IndexFrom(s, sep, 0)
  }

  /** `s.split(sep)`: the pieces between consecutive occurrences of `sep`, left to right. */
  function Split(s: string, sep: string): (parts: seq<string>)
    requires sep != ""
    ensures |parts| >= 1
    decreases |s|
  {
    match IndexOf(s, sep)
    case None => [s]
    case Some(i) => [s[..i]] + Split(s[i + |sep|..], sep)
  }

  /** `parts.join(sep)`. */
  function Join(parts: seq<string>, sep: string): string
    requires |parts| >= 1
  {
    if |parts| == 1 then parts[0] else parts[0] + sep + Join(parts[1..], sep)
  }

  /** The last piece of a split (`s.split(sep).pop()`). */
  function LastPiece(s: string, sep: string): string
    requires sep != ""
  {
    var parts := Split(s, sep);
    parts[|parts| - 1]
  }

  /** A prefix of `s` that ends before the first occurrence of `sep` does not contain `sep`. */
  lemma NoOccurrenceBefore(s: string, sep: string, i: nat)
    requires sep != "" && i <= |s|
    requires forall j :: 0 <= j < i ==> !OccursAt(s, sep, j)
    ensures !Occurs(s[..i], sep)
  {
    forall j | OccursAt(s[..i], sep, j)
      ensures false
    {
      assert s[..i][j..j + |sep|] == s[j..j + |sep|];
      assert OccursAt(s, sep, j);
    }
  }

  /** One step of a split at the first separator, at index `i`. */
  lemma SplitStep(s: string, sep: string, i: nat)
    requires sep != "" && IndexOf(s, sep) == Some(i)
    ensures i + |sep| <= |s|
    ensures Split(s, sep) == [s[..i]] + Split(s[i + |sep|..], sep)
    ensures s == s[..i] + sep + s[i + |sep|..]
  {
    assert OccursAt(s, sep, i);
    Decompose(s, i, |sep|);
  }

  /** `s` is its text before `i`, the `w` characters from `i`, and the rest. */
  lemma Decompose(s: string, i: nat, w: nat)
    requires i + w <= |s|
    ensures s == s[..i] + s[i..i + w] + s[i + w..]
  {
  }

  lemma PrefixAndRest(s: string, i: nat)
    requires i <= |s|
    ensures s == s[..i] + s[i..] && |s[i..]| == |s| - i
  {
  }

  lemma AfterSeparator(a: string, sep: string, p: string, tail: string)
    ensures (a + sep + p + tail)[|a| + |sep|..] == p + tail
  {
  }

  /** Splitting and joining again gives back the original string. */
  lemma {:induction false} SplitJoin(s: string, sep: string)
    requires sep != ""
    ensures Join(Split(s, sep), sep) == s
    decreases |s|
  {
    var r := IndexOf(s, sep);
    if r.Some? {
      var i := r.value;
      var rest := s[i + |sep|..];
      SplitStep(s, sep, i);
      SplitJoin(rest, sep);
      var parts := Split(s, sep);
      assert parts[1..] == Split(rest, sep);
      assert Join(parts, sep) == s[..i] + sep + Join(Split(rest, sep), sep);
    }
  }

  /** No piece of a split contains the separator. */
  lemma {:induction false} SplitPiecesFree(s: string, sep: string)
    requires sep != ""
    ensures forall k :: 0 <= k < |Split(s, sep)| ==> !Occurs(Split(s, sep)[k], sep)
    decreases |s|
  {
    var parts := Split(s, sep);
    match IndexOf(s, sep)
    case None =>
    case Some(i) =>
      var rest := s[i + |sep|..];
      SplitPiecesFree(rest, sep);
      NoOccurrenceBefore(s, sep, i);
      assert parts == [s[..i]] + Split(rest, sep);
      forall k | 0 <= k < |parts| ensures !Occurs(parts[k], sep) {
        if k > 0 { assert parts[k] == Split(rest, sep)[k - 1]; }
      }
  }

  /** `sep` occurs at `i` and nowhere before `i`. */
  predicate FirstAt(s: string, sep: string, i: int)
  {
    OccursAt(s, sep, i) && forall j :: 0 <= j < i ==> !OccursAt(s, sep, j)
  }

  /** An occurrence right after a prefix `p` is an occurrence at the start of what follows `p`. */
  lemma OccursAfterPrefix(p: string, tail: string, sep: string)
    requires OccursAt(p + tail, sep, |p|)
    ensures OccursAt(tail, sep, 0)
  {
    assert (p + tail)[|p|..|p| + |sep|] == tail[..|sep|];
  }

  lemma FirstAtIsIndexOf(s: string, sep: string, i: nat)
    requires sep != "" && FirstAt(s, sep, i)
    ensures IndexOf(s, sep) == Some(i)
  {
  }

  /**
   * The first piece of a split: `s` is that piece followed either by nothing
   * (and the piece has no separator) or by the first separator.
   */
  lemma FirstPiece(s: string, sep: string)
    requires sep != ""
    ensures var p := Split(s, sep)[0];
            && |p| <= |s| && s == p + s[|p|..]
            && ((s[|p|..] == "" && !Occurs(p, sep)) || FirstAt(s, sep, |p|))
  {
    var r := IndexOf(s, sep);
    if r.Some? {
      SplitStep(s, sep, r.value);
      assert Split(s, sep)[0] == s[..r.value];
      PrefixAndRest(s, r.value);
    } else {
      assert Split(s, sep) == [s];
      PrefixAndRest(s, |s|);
    }
  }

  /** Conversely, text ending the string or ending before the first separator is the first piece. */
  lemma FirstPieceOf(p: string, tail: string, sep: string)
    requires sep != ""
    requires (tail == "" && !Occurs(p, sep)) || FirstAt(p + tail, sep, |p|)
    ensures Split(p + tail, sep)[0] == p
  {
    if tail == "" && !Occurs(p, sep) {
      assert p + tail == p;
      assert Split(p, sep) == [p];
    } else {
      FirstAtIsIndexOf(p + tail, sep, |p|);
      SplitStep(p + tail, sep, |p|);
      assert (p + tail)[..|p|] == p;
    }
  }

  /**
   * The second piece of a split: `s` is the text before the first separator,
   * that separator, the second piece, and then either nothing or the next separator.
   */
  lemma SecondPiece(s: string, sep: string)
    requires sep != "" && |Split(s, sep)| > 1
    ensures var i := IndexOf(s, sep).value;
            var p := Split(s, sep)[1];
            i + |sep| + |Split(s, sep)[1]| <= |s|
    ensures var i := IndexOf(s, sep).value;
            var p := Split(s, sep)[1];
            var tail := s[i + |sep| + |p|..];
            && s == s[..i] + sep + p + tail
            && FirstAt(s, sep, i)
            && ((tail == "" && !Occurs(p, sep)) || FirstAt(p + tail, sep, |p|))
  {
    var i := IndexOf(s, sep).value;
    var rest := s[i + |sep|..];
    SplitStep(s, sep, i);
    FirstPiece(rest, sep);
    var p := Split(rest, sep)[0];
    assert Split(s, sep)[1] == p;
    Reassemble(s, i, sep, p, rest[|p|..]);
  }

  /** Splitting the text after a separator at `i` into `p` and `tail`. */
  lemma Reassemble(s: string, i: nat, sep: string, p: string, tail: string)
    requires i + |sep| <= |s| && s == s[..i] + sep + s[i + |sep|..]
    requires s[i + |sep|..] == p + tail
    ensures s[i + |sep| + |p|..] == tail
    ensures s == s[..i] + sep + p + tail
  {
    assert s[i + |sep|..][|p|..] == tail;
  }

  /** Conversely, the text between the first separator and the next one (or the end) is the second piece. */
  lemma SecondPieceOf(a: string, sep: string, p: string, tail: string)
    requires sep != ""
    requires FirstAt(a + sep + p + tail, sep, |a|)
    requires (tail == "" && !Occurs(p, sep)) || FirstAt(p + tail, sep, |p|)
    ensures |Split(a + sep + p + tail, sep)| > 1
    ensures Split(a + sep + p + tail, sep)[1] == p
  {
    var s := a + sep + p + tail;
    FirstAtIsIndexOf(s, sep, |a|);
    SplitStep(s, sep, |a|);
    AfterSeparator(a, sep, p, tail);
    FirstPieceOf(p, tail, sep);
    assert Split(s, sep)[1] == Split(p + tail, sep)[0];
  }

  /** `e` ends `s`, and when `afterSep` holds it is preceded there by `sep`. */
  predicate EndsWithPiece(s: string, e: string, sep: string, afterSep: bool)
  {
    && |e| <= |s| && s[|s| - |e|..] == e
    && (afterSep ==> |e| + |sep| <= |s| && s[|s| - |e| - |sep|..|s| - |e|] == sep)
  }

  /**
   * The last piece of a split is a suffix of `s`; when the separator occurs in
   * `s`, that suffix is preceded by a separator.
   */
  lemma {:induction false} LastPieceAfterSep(s: string, sep: string)
    requires sep != ""
    ensures EndsWithPiece(s, LastPiece(s, sep), sep, IndexOf(s, sep).Some?)
    decreases |s|
  {
    if IndexOf(s, sep).Some? {
      var i := IndexOf(s, sep).value;
      LastPieceAfterSep(s[i + |sep|..], sep);
      LastPieceAfterFirst(s, sep, i);
    } else {
      LastPieceWhole(s, sep);
    }
  }

  /** The inductive step of LastPieceAfterSep, at the first separator `i`. */
  lemma LastPieceAfterFirst(s: string, sep: string, i: nat)
    requires sep != "" && IndexOf(s, sep) == Some(i)
    requires i + |sep| <= |s|
    requires var rest := s[i + |sep|..];
             EndsWithPiece(rest, LastPiece(rest, sep), sep, IndexOf(rest, sep).Some?)
    ensures EndsWithPiece(s, LastPiece(s, sep), sep, true)
  {
    var rest := s[i + |sep|..];
    LastPieceStep(s, sep, i);
    var inner := IndexOf(rest, sep).Some?;
    if !inner {
      LastPieceWhole(rest, sep);
    }
    SuffixAfterSep(s, i, sep, LastPiece(rest, sep), inner);
  }

  /** Without a separator the last piece is the whole text. */
  lemma LastPieceWhole(s: string, sep: string)
    requires sep != "" && IndexOf(s, sep).None?
    ensures LastPiece(s, sep) == s && s[|s| - |s|..] == s
  {
    assert Split(s, sep) == [s];
  }

  /** One step of a split: the last piece of `s` is the last piece of what follows the first separator. */
  lemma LastPieceStep(s: string, sep: string, i: nat)
    requires sep != "" && IndexOf(s, sep) == Some(i)
    ensures i + |sep| <= |s| && s[i..i + |sep|] == sep
    ensures LastPiece(s, sep) == LastPiece(s[i + |sep|..], sep)
  {
    assert OccursAt(s, sep, i);
    var rest := s[i + |sep|..];
    LastOfParts(s, sep, s[..i], Split(rest, sep));
  }

  /** The last piece of a split that starts with one piece `x` followed by `r`. */
  lemma LastOfParts(s: string, sep: string, x: string, r: seq<string>)
    requires sep != "" && |r| >= 1 && Split(s, sep) == [x] + r
    ensures LastPiece(s, sep) == r[|r| - 1]
  {
    assert ([x] + r)[|r|] == r[|r| - 1];
  }

  /**
   * Index arithmetic behind LastPieceAfterSep: `e` is a suffix of what follows
   * the separator at `i`, either preceded by a further separator (`inner`) or
   * all of it; either way `e` is a suffix of `s` preceded by a separator.
   */
  lemma SuffixAfterSep(s: string, i: nat, sep: string, e: string, inner: bool)
    requires i + |sep| <= |s| && s[i..i + |sep|] == sep
    requires EndsWithPiece(s[i + |sep|..], e, sep, inner)
    requires !inner ==> e == s[i + |sep|..]
    ensures EndsWithPiece(s, e, sep, true)
  {
    var k := i + |sep|;
    SliceOfSuffix(s, k, |s| - |e|, |s|);
    if inner {
      SliceOfSuffix(s, k, |s| - |e| - |sep|, |s| - |e|);
    }
  }

  /** A slice of a suffix of `s` is the matching slice of `s`. */
  lemma SliceOfSuffix(s: string, k: nat, a: nat, b: nat)
    requires k <= a <= b <= |s|
    ensures s[k..][a - k..b - k] == s[a..b]
  {
  }

  /**
   * The last piece of a split is a separator-free suffix of `s`: all of `s`
   * when the separator does not occur, and otherwise preceded by a separator.
   */
  lemma LastPieceIsSuffix(s: string, sep: string)
    requires sep != ""
    ensures var e := LastPiece(s, sep);
            && |e| <= |s| && s[|s| - |e|..] == e && !Occurs(e, sep)
            && (!Occurs(s, sep) ==> e == s)
            && (Occurs(s, sep) ==> |e| + |sep| <= |s| && s[|s| - |e| - |sep|..|s| - |e|] == sep)
  {
    LastPieceAfterSep(s, sep);
    SplitPiecesFree(s, sep);
  }
  /** A one-character separator occurs exactly when that character is in the text. */
  lemma CharOccurs(s: string, c: char)
    ensures Occurs(s, [c]) <==> c in s
  {
    if c in s {
      var i :| 0 <= i < |s| && s[i] == c;
      assert OccursAt(s, [c], i);
    }
    if Occurs(s, [c]) {
      var i :| 0 <= i <= |s| && OccursAt(s, [c], i);
      assert s[i] == s[i..i + 1][0];
    }
  }

  /** Joining with one more piece appends the separator and that piece. */
  lemma {:induction false} JoinAppend(parts: seq<string>, x: string, sep: string)
    requires |parts| >= 1
    ensures Join(parts + [x], sep) == Join(parts, sep) + sep + x
    decreases |parts|
  {
    if |parts| > 1 {
      assert (parts + [x])[1..] == parts[1..] + [x];
      JoinAppend(parts[1..], x, sep);
    }
  }

  /**
   * With a one-character separator that no piece contains, splitting the joined
   * text gives back the pieces.
   */
  lemma {:induction false} SplitOfJoin(parts: seq<string>, sep: string)
    requires |sep| == 1 && |parts| >= 1
    requires forall k :: 0 <= k < |parts| ==> !Occurs(parts[k], sep)
    ensures Split(Join(parts, sep), sep) == parts
    decreases |parts|
  {
    var p := parts[0];
    if |parts| == 1 {
      assert IndexOf(p, sep).None?;
    } else {
      var rest := Join(parts[1..], sep);
      var s := p + sep + rest;
      assert s[|p|..|p| + 1] == sep;
      forall j | 0 <= j < |p|
        ensures !OccursAt(s, sep, j)
      {
        if OccursAt(s, sep, j) {
          assert s[j..j + 1] == p[j..j + 1];
          assert OccursAt(p, sep, j);
          assert false;
        }
      }
      assert Join(parts, sep) == s;
      FirstAtIsIndexOf(s, sep, |p|);
      assert s[..|p|] == p && s[|p| + 1..] == rest;
      SplitOfJoin(parts[1..], sep);
      assert Split(s, sep) == [p] + parts[1..];
      assert parts == [p] + parts[1..];
    }
  }
}
