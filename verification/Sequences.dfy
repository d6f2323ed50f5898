/** The shifting loops' effect on a list: removing one entry keeps the others in order. */
module Sequences {
  ghost predicate Distinct(xs: seq<nat>) {
    forall i, j :: 0 <= i < j < |xs| ==> xs[i] != xs[j]
  }

  function RemoveAt(xs: seq<nat>, i: nat): seq<nat>
    requires i < |xs|
  {
    xs[..i] + xs[i + 1..]
  }

  lemma RemoveAtElements(xs: seq<nat>, i: nat)
    requires i < |xs| && Distinct(xs)
    ensures |RemoveAt(xs, i)| == |xs| - 1 && Distinct(RemoveAt(xs, i))
    ensures forall j :: 0 <= j < |xs| - 1 ==> RemoveAt(xs, i)[j] == xs[if j < i then j else j + 1]
    ensures forall x :: x in RemoveAt(xs, i) <==> x in xs && x != xs[i]
  {
    var rest := RemoveAt(xs, i);
    forall j | 0 <= j < |rest| ensures rest[j] == xs[if j < i then j else j + 1] {}
    forall x | x in xs && x != xs[i] ensures x in rest {
      var j :| 0 <= j < |xs| && xs[j] == x;
      assert rest[if j < i then j else j - 1] == x;
    }
  }

  function IndexOf(xs: seq<nat>, x: nat): (i: nat)
    requires x in xs
    ensures i < |xs| && xs[i] == x && x !in xs[..i]
  {
    if xs[0] == x then 0
    else
      var rest := IndexOf(xs[1..], x);
      assert forall j :: 1 <= j < 1 + rest ==> xs[j] == xs[1..][j - 1];
      1 + rest
  }

  /** The first occurrence is where `IndexOf` finds it. */
  lemma IndexIs(ids: seq<nat>, id: nat, i: nat)
    requires i < |ids| && ids[i] == id && id !in ids[..i]
    ensures IndexOf(ids, id) == i
  {
    var first := IndexOf(ids, id);
    assert forall j :: 0 <= j < i ==> ids[..i][j] == ids[j];
    assert forall j :: 0 <= j < first ==> ids[..first][j] == ids[j];
  }

  lemma {:induction false} SubsetSize(a: set<nat>, b: set<nat>)
    requires a <= b
    ensures |a| <= |b|
  {
    if a != {} {
      var x :| x in a;
      SubsetSize(a - {x}, b - {x});
    }
  }

  /** Positions `from` up to `to` have each taken over the value after them: a shifting loop so far. */
  ghost predicate Shifted(before: seq<nat>, after: seq<nat>, from: nat, to: nat) {
    && |after| == |before| && to < |before|
    && forall j {:trigger after[j]} :: 0 <= j < |before| ==> after[j] == before[if from <= j < to then j + 1 else j]
  }

  /** A finished shifting loop has removed one entry from the part of the buffer in use. */
  lemma ShiftRemoves(before: seq<nat>, after: seq<nat>, count: nat, pos: nat)
    requires pos < count <= |before| && Shifted(before, after, pos, count - 1)
    ensures after[..count - 1] == RemoveAt(before[..count], pos)
    ensures forall k :: 0 <= k < count - 1 ==> after[k] == before[if k < pos then k else k + 1]
  {
    assert forall k :: 0 <= k < count - 1 ==> after[k] == before[if k < pos then k else k + 1];
  }
}
