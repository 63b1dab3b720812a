/**
 * Joining strings in order, the fold behind both the buffering of a
 * request body and the paragraphs of the details page, and what it keeps.
 */
module Strings {

  /** The parts joined in order, each appended after the ones before it. */
  function Concat(parts: seq<string>): string
  {
    if parts == [] then "" else Concat(parts[..|parts| - 1]) + parts[|parts| - 1]
  }

  /** The total length of the parts. */
  function TotalLength(parts: seq<string>): nat
  {
    if parts == [] then 0 else |parts[0]| + TotalLength(parts[1..])
  }

  /** Joining two runs of parts gives the two joins one after the other. */
  lemma {:induction false} ConcatAppend(a: seq<string>, b: seq<string>)
    ensures Concat(a + b) == Concat(a) + Concat(b)
    decreases |b|
  {
    if b == [] {
      assert a + b == a;
    } else {
      var b' := b[..|b| - 1];
      assert (a + b)[..|a + b| - 1] == a + b';
      ConcatAppend(a, b');
    }
  }

  /** Part i sits right after parts 0..i-1 and right before the rest: nothing is lost or reordered. */
  lemma PartInPlace(parts: seq<string>, i: nat)
    requires i < |parts|
    ensures Concat(parts) == Concat(parts[..i]) + parts[i] + Concat(parts[i + 1..])
    ensures Concat(parts)[|Concat(parts[..i])|..|Concat(parts[..i])| + |parts[i]|] == parts[i]
  {
    assert parts == parts[..i] + [parts[i]] + parts[i + 1..];
    ConcatAppend(parts[..i] + [parts[i]], parts[i + 1..]);
    ConcatAppend(parts[..i], [parts[i]]);
    assert [parts[i]][..0] == [];
  }

  /** The join is exactly as long as all parts together. */
  lemma {:induction false} ConcatLength(parts: seq<string>)
    ensures |Concat(parts)| == TotalLength(parts)
    decreases |parts|
  {
    if parts != [] {
      assert parts == [parts[0]] + parts[1..];
      ConcatAppend([parts[0]], parts[1..]);
      assert [parts[0]][..0] == [];
      ConcatLength(parts[1..]);
    }
  }

  ghost predicate OccursAt(s: string, part: string, k: int) {
    0 <= k <= |s| - |part| && s[k..k + |part|] == part
  }

  /** part is a substring of s. */
  ghost predicate Contains(s: string, part: string) {
    exists k :: OccursAt(s, part, k)
  }

  /** A slice of s is the same slice, shifted by |h|, of h + s. */
  lemma SliceAfter(h: string, s: string, x: nat, n: nat)
    requires x + n <= |s|
    ensures (h + s)[|h| + x..|h| + x + n] == s[x..x + n]
  {
  }

  /** Part i appears in a heading followed by the join of the parts. */
  lemma PartShown(heading: string, parts: seq<string>, i: nat)
    requires i < |parts|
    ensures Contains(heading + Concat(parts), parts[i])
  {
    PartInPlace(parts, i);
    var x := |Concat(parts[..i])|;
    SliceAfter(heading, Concat(parts), x, |parts[i]|);
    assert OccursAt(heading + Concat(parts), parts[i], |heading| + x);
  }

  /** Every part appears in a heading followed by the join of the parts. */
  lemma EachPartShown(heading: string, parts: seq<string>)
    ensures forall i :: 0 <= i < |parts| ==> Contains(heading + Concat(parts), parts[i])
  {
    forall i | 0 <= i < |parts|
      ensures Contains(heading + Concat(parts), parts[i])
    {
      PartShown(heading, parts, i);
    }
  }
}
