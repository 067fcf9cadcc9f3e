/** Client code for the interpreter: command sequences whose results follow
    from the contracts of the session's methods alone. Longer sequences are
    cut into a setup method, whose contract describes the session it hands
    on, and the rest. */
module Scenarios {
  import opened Wrappers
  import opened Layout
  import opened Graph
  import opened Grammar
  import opened Interpreter

  /** `git init` on a new session. */
  method AfterInit() returns (s: Session, master: Branch)
    ensures fresh(s) && fresh(s.Repr) && s.Valid()
    ensures s.keys == ["master"] && s.table == map["master" := master] && s.selected == Some(master)
    ensures master.name == "master" && master.x == 100 && master.y == 30 && master.nextCommit == 80
    ensures master.commits == [] && master.children == []
  {
    s := new Session();
    var _ := s.InitCmd();
    master := s.table["master"];
  }

  /** `git init`, `git branch feature`, `git branch`: the listing names both
      branches in creation order and marks master, which is still current. */
  method InitBranchList() returns (branch: Outcome, list: Outcome, keys: seq<string>, current: string)
    ensures branch == Returned(None)
    ensures keys == ["master", "feature"] && current == "master"
    ensures list == Returned(Some(Listing(keys, current)))
  {
    var s, master := AfterInit();
    branch := s.BranchCmd("feature");
    list := s.BranchCmd("");
    keys := s.keys;
    current := s.selected.value.name;
  }

  /** `git init`, `git checkout -b dev`, `git commit`: dev sits one drop below
      master with no lift, and its first commit lands right of master's
      lifeline start. */
  method CheckoutNewThenCommit() returns (switched: Outcome, devCommits: seq<Point>, masterStart: int)
    ensures switched == Returned(Some(Switched("dev")))
    ensures devCommits == [Point(180, 130)]
    ensures masterStart == 100 && devCommits[0].x > masterStart
  {
    var s, master := AfterInit();
    masterStart := master.x;
    switched := s.CheckoutNewCmd("dev");
    var _ := s.CommitCmd();
    devCommits := s.table["dev"].commits;
  }

  /** `git init`, `git commit`, `git branch hotfix`: the hotfix is lifted
      above its default slot and starts from master's cursor. */
  method HotfixBranched() returns (s: Session, master: Branch, hotfix: Branch)
    ensures fresh(s) && fresh(s.Repr) && s.Valid()
    ensures s.selected == Some(master) && master != hotfix
    ensures "master" in s.table && s.table["master"] == master
    ensures "hotfix" in s.table && s.table["hotfix"] == hotfix
    ensures master.commits == [Point(130, 30)]
    ensures hotfix.commits == [] && hotfix.y == 95 && hotfix.nextCommit == 180
  {
    s, master := AfterInit();
    var _ := s.CommitCmd();
    var _ := s.BranchCmd("hotfix");
    hotfix := s.table["hotfix"];
  }

  /** ... then `git checkout hotfix`, `git commit`: the first hotfix commit
      is one step past the cursor it inherited. */
  method HotfixCommitted() returns (s: Session, master: Branch, hotfix: Branch)
    ensures fresh(s) && fresh(s.Repr) && s.Valid()
    ensures s.selected == Some(hotfix) && master != hotfix
    ensures "master" in s.table && s.table["master"] == master
    ensures master.commits == [Point(130, 30)]
    ensures hotfix.commits == [Point(230, 95)] && hotfix.y == 95
  {
    s, master, hotfix := HotfixBranched();
    var _ := s.CheckoutCmd("hotfix");
    var _ := s.CommitCmd();
  }

  /** ... then `git merge master`: the merge commit lands on hotfix one step
      past its own tip, and master keeps its single commit. */
  method HotfixMerge() returns (merge: Outcome, masterCommits: seq<Point>, hotfixCommits: seq<Point>)
    ensures merge == Returned(None)
    ensures masterCommits == [Point(130, 30)]
    ensures hotfixCommits == [Point(230, 95), Point(280, 95)]
  {
    var s, master, hotfix := HotfixCommitted();
    merge := s.MergeCmd("master");
    masterCommits := master.commits;
    hotfixCommits := hotfix.commits;
  }

  /** `git commit` before `git init` reports that there is no repository and
      creates nothing. */
  method CommitBeforeInit() returns (result: Outcome, keys: seq<string>)
    ensures result == ThrewError(NotARepository)
    ensures keys == []
  {
    var s := new Session();
    result := s.CommitCmd();
    keys := s.keys;
  }

  /** Checking out an unknown name fails and leaves no branch selected, so
      the next commit reports that there is no repository. */
  method FailedCheckout() returns (checkout: Outcome, commit: Outcome)
    ensures checkout == ThrewTypeError
    ensures commit == ThrewError(NotARepository)
  {
    var s, master := AfterInit();
    checkout := s.CheckoutCmd("nope");
    commit := s.CommitCmd();
  }

  /** Merging while both branches are empty fails before any commit is
      made. */
  method MergeEmpty() returns (merge: Outcome, masterCommits: seq<Point>)
    ensures merge == ThrewTypeError
    ensures masterCommits == []
  {
    var s, master := AfterInit();
    merge := s.MergeCmd("master");
    masterCommits := master.commits;
  }

  /** `git branch master` after `git init`: the new child replaces the table
      entry, so the selected branch is no longer in the table, yet the
      listing marks the new entry, whose name is the same. */
  method DuplicateOverwrites() returns (selectedInTable: bool, entryY: int, list: Outcome)
    ensures !selectedInTable
    ensures entryY == 95
    ensures list == Returned(Some(Listing(["master"], "master")))
  {
    var s, master := AfterInit();
    var _ := s.BranchCmd("master");
    selectedInTable := s.selected.value == s.table["master"];
    entryY := s.table["master"].y;
    list := s.BranchCmd("");
  }

  /** A canonical `git init` line initialises a new session. */
  method InitLine() returns (result: Option<string>)
    ensures result == Some(Initialized)
  {
    var s := new Session();
    var line := Spell(Command.Init, "");
    assert Exec(line) == Some((Command.Init, "")) by {
      RoundTrip(Command.Init, "");
    }
    assert s.LineOutcome(line) == Returned(Some(Initialized));
    result := s.RunGitCommand(line);
  }

  /** A line without the `git` prefix is not a command. */
  method UnknownLine() returns (result: Option<string>)
    ensures result == Some(NotImplemented)
  {
    var s := new Session();
    assert Exec("ls") == None;
    result := s.RunGitCommand("ls");
  }

  /** `git merge <name>` after `git init`, for any name but `master`: the
      merge throws a `TypeError`, which the dispatch reports as the
      not-implemented text. */
  method MergeUnknownLine(name: string) returns (result: Option<string>)
    requires AllWordChars(name) && name != "master"
    ensures result == Some(NotImplemented)
  {
    var s, master := AfterInit();
    assert s.CommandOutcome(Command.Merge, name) == ThrewTypeError;
    var line := Spell(Command.Merge, name);
    RoundTrip(Command.Merge, name);
    assert s.LineOutcome(line) == ThrewTypeError;
    result := s.RunGitCommand(line);
  }

  /** A line that is neither `help` nor `clear` goes to the git dispatch. */
  method InitThroughRunCommand() returns (result: Option<string>)
    ensures result == Some(Initialized)
  {
    var s := new Session();
    var line := Spell(Command.Init, "");
    assert Exec(line) == Some((Command.Init, "")) by {
      RoundTrip(Command.Init, "");
    }
    assert s.LineOutcome(line) == Returned(Some(Initialized));
    result := s.RunCommand(line);
  }
}
