/** A branch of the simulated repository: its fixed label position, its
    commit cursor, its lifeline end and its append-only history. */
module Graph {
  import opened Wrappers
  import opened Layout

  class Branch {
    const name: string
    const color: string
    /** Where the lifeline starts. */
    const x: int
    /** The row every commit of this branch is drawn on. */
    const y: int
    /** The x of the next (or, once there is one, the newest) commit. */
    var nextCommit: int
    /** Where the lifeline currently ends. */
    var lifelineEnd: int
    var commits: seq<Point>
    /** Child branches; the program never adds to it. */
    var children: seq<Branch>
    /** Highlighted as the current branch. */
    var isActive: bool

    /** The layout invariant every operation keeps: the cursor is the newest
        commit's x (or sits 20 left of the lifeline start while there is no
        commit), the lifeline ends 30 past it, and all commits share the
        branch's row. */
    ghost predicate Valid()
      reads this`children, this`commits, this`nextCommit, this`lifelineEnd
    {
      && children == []
      && (forall i :: 0 <= i < |commits| ==> commits[i].y == y)
      && (if commits == [] then
            nextCommit == x - LifelineOffset + CursorOffset && lifelineEnd == x + LifelineLength
          else
            nextCommit == commits[|commits| - 1].x && lifelineEnd == nextCommit + LifelineOverhang)
    }

    /** makeBranch for a branch drawn from an explicit origin. */
    constructor (name: string, originX: int, originY: int, color: string)
      ensures this.name == name && this.color == color
      ensures x == originX + LifelineOffset && y == originY
      ensures nextCommit == originX + CursorOffset
      ensures lifelineEnd == originX + LifelineOffset + LifelineLength
      ensures commits == [] && children == [] && !isActive
      ensures Valid() && Ascending(commits)
    {
      this.name := name;
      this.color := color;
      x := originX + LifelineOffset;
      y := originY;
      nextCommit := originX + CursorOffset;
      lifelineEnd := originX + LifelineOffset + LifelineLength;
      commits := [];
      children := [];
      isActive := false;
    }

    /** makeCommit: advance the cursor (to the explicit x plus one step when
        that x is truthy, else by one step), extend the lifeline and append
        the new commit on the branch's row. */
    method Commit(explicitX: Option<int>) returns (c: Point)
      modifies this
      ensures nextCommit == PlaceCommit(old(nextCommit), explicitX)
      ensures c == Point(nextCommit, y)
      ensures commits == old(commits) + [c]
      ensures lifelineEnd == nextCommit + LifelineOverhang
      ensures children == old(children) && isActive == old(isActive)
      ensures old(Valid()) ==> Valid()
      ensures old(Valid()) && Ascending(old(commits)) && (!Truthy(explicitX) || explicitX.value >= old(nextCommit))
              ==> Ascending(commits)
    {
      if Truthy(explicitX) {
        nextCommit := explicitX.value + CommitStep;
      } else {
        nextCommit := nextCommit + CommitStep;
      }
      lifelineEnd := nextCommit + LifelineOverhang;
      c := Point(nextCommit, y);
      AscendingAppend(commits, c);
      commits := commits + [c];
    }

    /** The `branch` method: a new child whose origin is this branch's cursor,
        one drop below this branch plus the hotfix or sibling offset. The
        child is not recorded among this branch's children. */
    method Spawn(childName: string, childColor: string) returns (child: Branch)
      ensures fresh(child)
      ensures child.name == childName && child.color == childColor
      ensures child.x == nextCommit + LifelineOffset
      ensures child.nextCommit == nextCommit + CursorOffset
      ensures child.y == y + ChildDrop + YOffset(name, childName, |children|)
      ensures child.commits == [] && child.children == [] && !child.isActive
      ensures child.Valid() && Ascending(child.commits)
    {
      var yExtra := YOffset(name, childName, |children|);
      child := new Branch(childName, nextCommit, y + ChildDrop + yExtra, childColor);
    }

    /** merge: unless the target is missing or either branch has no commit
        (a TypeError in the program, reported as `threw`), append one commit
        to THIS branch, placed by the target's and this branch's last x. */
    method Merge(to: Option<Branch>) returns (threw: bool)
      modifies this
      ensures threw <==> to.None? || old(to.value.commits) == [] || old(commits) == []
      ensures threw ==> commits == old(commits) && nextCommit == old(nextCommit) && lifelineEnd == old(lifelineEnd)
      ensures !threw ==>
                var lastTo := old(to.value.commits[|to.value.commits| - 1].x);
                var lastFrom := old(commits[|commits| - 1].x);
                commits == old(commits) + [Point(PlaceCommit(old(nextCommit), MergeHint(lastTo, lastFrom)), y)]
      ensures !threw && old(Valid()) && old(nextCommit) > 0 ==>
                var lastTo := old(to.value.commits[|to.value.commits| - 1].x);
                var lastFrom := old(commits[|commits| - 1].x);
                nextCommit == Max(lastTo, lastFrom) + CommitStep
      ensures to.Some? && to.value != this ==> to.value.commits == old(to.value.commits)
      ensures children == old(children) && isActive == old(isActive)
      ensures old(Valid()) ==> Valid()
      ensures old(Valid()) && old(Ascending(commits)) ==> Ascending(commits)
    {
      if to.None? || to.value.commits == [] || commits == [] {
        return true;
      }
      var lastTo := to.value.commits[|to.value.commits| - 1];
      var lastFrom := commits[|commits| - 1];
      var hint := MergeHint(lastTo.x, lastFrom.x);
      if Valid() && nextCommit > 0 {
        MergeLandsPastBoth(lastTo.x, lastFrom.x);
      }
      var _ := Commit(hint);
      threw := false;
    }

    /** active: highlight the branch. */
    method Activate()
      modifies this`isActive
      ensures isActive
    {
      isActive := true;
    }

    /** deactive: remove the highlight. */
    method Deactivate()
      modifies this`isActive
      ensures !isActive
    {
      isActive := false;
    }
  }
}
