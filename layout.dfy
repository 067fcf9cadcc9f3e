/** The coordinate rules of the commit graph: where a branch starts, where
    its next commit goes and how far a child branch sits below its parent.
    All coordinates are integers. */
module Layout {
  import opened Wrappers

  datatype Point = Point(x: int, y: int)

  /** Origin of the root branch created by `init`. */
  const RootX: int := 30
  const RootY: int := 30

  /** Distance from a branch's origin to the start of its lifeline. */
  const LifelineOffset: int := 70
  /** Distance from a branch's origin to its initial commit cursor. */
  const CursorOffset: int := 50
  /** Length of a fresh lifeline (it ends at origin + 130). */
  const LifelineLength: int := 60
  /** Horizontal step from one commit to the next. */
  const CommitStep: int := 50
  /** How far the lifeline reaches past the newest commit. */
  const LifelineOverhang: int := 30
  /** Vertical distance from a parent branch to its child's default slot. */
  const ChildDrop: int := 100
  /** A hotfix-style child is lifted this much above its default slot. */
  const HotfixLift: int := 35
  /** Vertical distance between stacked siblings. */
  const SiblingSpacing: int := 70

  /** JavaScript truthiness of makeCommit's optional number: absent and 0 are falsy. */
  predicate Truthy(x: Option<int>) {
    x.Some? && x.value != 0
  }

  /** The x of a new commit (and the branch's new cursor), given the old
      cursor and the optional explicit x. */
  function PlaceCommit(cursor: int, explicitX: Option<int>): int {
    if Truthy(explicitX) then explicitX.value + CommitStep else cursor + CommitStep
  }

  /** The explicit x a merge passes on: the target's last x, but only when it
      lies strictly to the right of the merging branch's last x. */
  function MergeHint(lastTo: int, lastFrom: int): Option<int> {
    if lastTo > lastFrom then Some(lastTo) else None
  }

  function Max(a: int, b: int): int {
    if a < b then b else a
  }

  /** When the merging branch's cursor is its last commit's x and lies right
      of the origin, the merge commit lands one step past both tips. */
  lemma MergeLandsPastBoth(lastTo: int, lastFrom: int)
    requires lastFrom > 0
    ensures PlaceCommit(lastFrom, MergeHint(lastTo, lastFrom)) == Max(lastTo, lastFrom) + CommitStep
    ensures PlaceCommit(lastFrom, MergeHint(lastTo, lastFrom)) >= lastTo + CommitStep
    ensures PlaceCommit(lastFrom, MergeHint(lastTo, lastFrom)) >= lastFrom + CommitStep
  {
  }

  /** Vertical offset of a new child below its parent's default slot. */
  function YOffset(parentName: string, childName: string, siblings: nat): (r: int)
    ensures r < 0 <==> parentName == "master" && childName != "dev"
    ensures siblings == 0 ==> r == -HotfixLift || r == 0
  {
    if parentName == "master" && childName != "dev" then
      -HotfixLift
    else if siblings > 0 then
      siblings * SiblingSpacing
    else
      0
  }

  /** Each commit of a branch's history lies at least one step right of the
      one before it. */
  ghost predicate Ascending(cs: seq<Point>) {
    |cs| <= 1 || (cs[0].x + CommitStep <= cs[1].x && Ascending(cs[1..]))
  }

  lemma {:induction false} AscendingAppend(cs: seq<Point>, p: Point)
    ensures Ascending(cs + [p]) <==> Ascending(cs) && (cs == [] || cs[|cs| - 1].x + CommitStep <= p.x)
  {
    if |cs| >= 2 {
      assert (cs + [p])[1..] == cs[1..] + [p];
      AscendingAppend(cs[1..], p);
    }
  }

  /** Along an ascending history x strictly increases, by at least one step
      between any two commits. */
  lemma {:induction false} AscendingIncreases(cs: seq<Point>, i: nat, j: nat)
    requires Ascending(cs)
    requires i < j < |cs|
    ensures cs[i].x + CommitStep <= cs[j].x
    ensures cs[i].x < cs[j].x
  {
    if i == 0 {
      if j > 1 {
        AscendingIncreases(cs[1..], 0, j - 1);
      }
    } else {
      AscendingIncreases(cs[1..], i - 1, j - 1);
    }
  }
}
