# play-git in Dafny

A model of the core of play-git, an in-browser simulator of `git init`,
`commit`, `branch`, `checkout`, `checkout -b` and `merge` that draws a commit
graph as commands are typed. The model covers the part that has content:

- the branch records made by `makeBranch`;
- their commit placement (`makeCommit`), child placement (`branch`) and
  merge placement (`merge`), all in integer coordinates;
- the selected-branch setter;
- colour derivation (`getColor`);
- the `commands` table;
- the command regular expression;
- the `runGitCommand` dispatch that turns every `TypeError` into the
  "Is not implmented or is not a git command" text.

Modules, leaf first:

- `Wrappers`: `Option`, which stands for JavaScript's `undefined`/`null`.
- `Layout`: the geometry constants and pure placement rules:
  - the commit cursor step;
  - the merge hint;
  - the child's vertical offset;
  - the `Ascending` predicate, under which x grows by at least 50 along a
    history.
- `Colors`: `String.prototype.includes`, the `reduce` over the colour keys,
  and the proof that the last matching key wins.
- `Graph`: class `Branch`, with fields updated in place:
  - `nextCommit`, `lifelineEnd` and the append-only `commits`;
  - `children`, standing for the source's `branches` list, which nothing
    ever adds to;
  - `isActive`, standing for the label highlight.

  Its methods are `makeCommit`, the `branch` method, `merge`, `active` and
  `deactive`. `Valid()` is the layout invariant: the cursor is the newest
  commit's x, the lifeline ends 30 past it, and every commit is on the
  branch's row.
- `Grammar`: `commandRe.exec`. It searches for the leftmost match, takes
  blank and word runs greedily, and tries the keyword alternatives in the
  regex's order (`checkout -b` before `checkout`). Parsing a canonical line
  gives back the command and its argument.
- `Interpreter`: the `Outcome` of a command (a return value, a `TypeError`,
  or an `Error` with a message) and the `git branch` listing. It also holds
  class `Session`, the global `state`: an insertion-ordered key list, the
  name-to-branch table and the selection. It has one method per command,
  `Execute` for the `commands` table, `RunGitCommand` and `RunCommand`.
  `Session.Valid()` is kept by every command and says:
  - keys are distinct and match the table, and `""` is never a key;
  - every reachable branch is valid, with an ascending history;
  - exactly the selected branch is active.
- `Scenarios`: command sequences checked against the method contracts,
  with their outcomes and coordinates stated exactly.

Behaviour of `index.js` worth knowing, modelled as written:

- **Colour.** `getColor` folds over the colour keys and overwrites its
  result at every key the name contains, so the last matching key wins
  (`"feature-dev"` is blue).
- **Duplicate names.** `git branch <name>` with a name already in the table
  silently replaces the entry, in the same key position. After
  `git branch master` the selected branch is no longer in the table, while
  the listing still marks the new `master` entry, because it compares names
  (`Scenarios.DuplicateOverwrites`).
- **Failed checkout.** Checking out an unknown name deactivates the old
  branch and leaves the selection unset. A following `git commit` therefore
  reports "not a git repository" even after `init` (`Scenarios.FailedCheckout`).
- **Commands before `init`.**
  - `git branch <name>` and `git merge <name>` before `init` read a field
    of the unset selection. They are `TypeError`s and yield the
    not-implemented text. Only `commit` throws the "not a git repository"
    message.
  - `git branch` with no name before `init` returns the empty listing.
- **Children.** A child is never added to its parent's `branches` list, so
  the sibling offset is always 0. Only the hotfix lift of −35 applies: a
  child of `master` not named `dev` is lifted.
- **Commit x.** `makeCommit` takes an explicit x whenever it is truthy
  (non-zero), with no comparison against the cursor. Merges only pass an x
  that is greater than the branch's own last x.

## Model

| member | source | states |
|---|---|---|
| `Graph.Branch.constructor` | index.js:9-37 | a branch from origin (x, y) has lifeline start x+70, row y, cursor x+50, lifeline end x+130, no commits, no children, and is valid |
| `Graph.Branch.Commit` | index.js:89-110 | the cursor becomes the truthy explicit x plus 50, else the old cursor plus 50; exactly one commit at (cursor, row) is appended; the lifeline ends at cursor+30; validity and ascending order are kept |
| `Graph.Branch.Spawn` | index.js:53-69 | the child's lifeline starts at parent cursor+70, its cursor is parent cursor+50, its row is parent row+100+offset; it is empty, inactive, not recorded in the parent |
| `Graph.Branch.Merge` | index.js:128-136 | throws exactly when the target is missing or either branch is empty, and then changes nothing; otherwise appends one commit to this branch at max(target's last x, own last x)+50; the target's commits are unchanged |
| `Graph.Branch.Activate` | index.js:47-52 | the branch is highlighted; nothing else changes |
| `Graph.Branch.Deactivate` | index.js:41-46 | the highlight is removed; nothing else changes |
| `Layout.YOffset` | index.js:56-63 | the offset is negative exactly for a child of `master` not named `dev`; with no recorded siblings it is −35 or 0 |
| `Layout.MergeLandsPastBoth` | index.js:132-136 | with a positive own tip, the merge commit lands at max of both tips plus 50, so at least 50 past each |
| `Layout.AscendingAppend` | index.js:89-110 | appending keeps a history ascending exactly when the new commit is at least 50 right of the last one |
| `Layout.AscendingIncreases` | index.js:89-94 | along an ascending history every later commit is at least 50, hence strictly, to the right of every earlier one |
| `Colors.IncludesIsSubstring` | index.js:178 | the recursive `includes` holds exactly when the fragment occurs at some index of the name |
| `Colors.ReduceIsLastMatch` | index.js:176-184 | the fold yields the start value when no key occurs, else the colour of the last key that occurs |
| `Colors.ColorIsLastMatch` | index.js:169-184 | `getColor` is `''` exactly when no palette key occurs, else the colour of the last occurring key in the order feature, master, hotfix, dev |
| `Colors.MixedNameTakesLastColor` | index.js:169-184 | `"feature-dev"` is blue: a later key overrides an earlier one |
| `Colors.MasterColorDerived` | index.js:188-193 | the colour `init` gives master is the one `getColor` derives for the name `master` |
| `Grammar.Run` | index.js:259 | a greedy `*` over a character class: the run is inside the class and stops at the first character outside it |
| `Grammar.FirstAlternative` | index.js:259 | the chosen keyword starts the text and no alternative tried before it does; none is chosen only when no keyword starts the text |
| `Grammar.MatchAt` | index.js:259 | a captured argument consists of word characters only |
| `Grammar.Exec` | index.js:259 | a captured argument consists of word characters only |
| `Grammar.ExecIsLeftmost` | index.js:259 | the match found is the one at the leftmost position that matches, and there is none exactly when no position matches |
| `Grammar.CheckoutFlagTriedFirst` | index.js:258-259 | `checkout -b` is chosen exactly when the text after `git` and blanks starts with it |
| `Grammar.RoundTrip` | index.js:259 | `git <keyword> <word>` parses back to that command and argument |
| `Interpreter.SplitJoin` | index.js:217 | cutting the `join('\n')` of break-free lines at line breaks gives the lines back |
| `Interpreter.ListingOneLinePerName` | index.js:207-217 | the listing has one line per table key, in table order, each the key's line |
| `Interpreter.OnlyCurrentMarked` | index.js:208-216 | a line carries the `*` marker exactly when its name is the current branch's name; with distinct keys at most one line does |
| `Interpreter.AddKey` | index.js:220 | assigning a key keeps the old keys in order, adds the key last only if new, and keeps keys distinct |
| `Interpreter.Session.constructor` | index.js:150-167 | an empty table, no selection, valid |
| `Interpreter.Session.Store` | index.js:220 | the entry under the name becomes the new branch, keys gain the name if it is new, validity is kept |
| `Interpreter.Session.Select` | index.js:158-164 | the old selection is deactivated, the new one assigned and activated; assigning nothing throws and leaves the selection unset |
| `Interpreter.Session.InitCmd` | index.js:187-197 | a fresh master at (100, 30) with cursor 80, no commits and colour green replaces any earlier one and is selected; the result is the confirmation text |
| `Interpreter.Session.CommitCmd` | index.js:199-204 | without a selection the not-a-repository error and no change; otherwise one commit 50 past the selected branch's cursor |
| `Interpreter.Session.BranchCmd` | index.js:206-224 | no name: the listing (empty with no keys, a TypeError with keys but no selection); a name: a child of the selected branch stored under it, overwriting, selection unchanged, or a TypeError without a selection |
| `Interpreter.Session.CheckoutCmd` | index.js:226-229 | a known name becomes the selection with the "Switched to branch" text; an unknown one leaves the selection unset and throws a TypeError; the table is unchanged |
| `Interpreter.Session.CheckoutNewCmd` | index.js:231-234 | with a name and a selection, the new child is stored and selected; otherwise a TypeError with the selection unset |
| `Interpreter.Session.MergeCmd` | index.js:236-238 | a TypeError without a selection, for an unknown or empty target, or an empty current branch, with no commit made; otherwise one commit on the current branch at max of both tips plus 50 |
| `Interpreter.Session.CommandOutcome` | index.js:186-251 | per command, the value returned or the exception thrown in a given state; an `Error` is thrown exactly by `commit` without a selection, and its message is the not-a-repository one |
| `Interpreter.Session.LineOutcome` | index.js:288-297 | an unmatched line meets the `TypeError` of calling an undefined entry; the only `Error` message is the not-a-repository one |
| `Interpreter.Session.Execute` | index.js:186-251 | the outcome is the command's outcome in the state before the call; `help` changes no field and no branch; validity is kept |
| `Interpreter.Session.RunGitCommand` | index.js:288-303 | the result text is the line's outcome, with every `TypeError` reported as the not-implemented text; an unmatched line or `help` changes no field and no branch |
| `Interpreter.Session.RunCommand` | index.js:280-286 | bare `help` yields the help text and bare `clear` no text, both changing no field and no branch; any other line yields the text of its git outcome |
| `Scenarios.AfterInit` | index.js:187-197 | after `init` the table is exactly master at (100, 30), cursor 80, selected |
| `Scenarios.InitBranchList` | index.js:206-223 | `init`, `branch feature`, `branch`: keys are master then feature and the listing marks master |
| `Scenarios.CheckoutNewThenCommit` | index.js:231-234 | `init`, `checkout -b dev`, `commit`: dev's only commit is at (180, 130), right of master's lifeline start |
| `Scenarios.HotfixBranched` | index.js:53-69 | after `init`, `commit`, `branch hotfix` the hotfix sits on row 95 with cursor 180 |
| `Scenarios.HotfixCommitted` | index.js:89-110 | after `checkout hotfix`, `commit` the hotfix holds (230, 95) and master still (130, 30) |
| `Scenarios.HotfixMerge` | index.js:128-136 | `merge master` on hotfix appends (280, 95) to hotfix and leaves master's commits as they were |
| `Scenarios.CommitBeforeInit` | index.js:199-202 | `commit` before `init` is the not-a-repository error and leaves no keys |
| `Scenarios.FailedCheckout` | index.js:158-164 | checking out an unknown name is a TypeError and the next `commit` is the not-a-repository error |
| `Scenarios.MergeEmpty` | index.js:128-134 | merging with both branches empty is a TypeError and adds no commit |
| `Scenarios.DuplicateOverwrites` | index.js:220-223 | `branch master` after `init` replaces the entry (row 95), the selected branch is left outside the table, the listing still marks `master` |
| `Scenarios.InitLine` | index.js:288-296 | the line `git init ` initialises a new session |
| `Scenarios.UnknownLine` | index.js:289-297 | the line `ls` yields the not-implemented text |
| `Scenarios.MergeUnknownLine` | index.js:236-238 | after `init`, `git merge <name>` for any word other than `master` yields the not-implemented text |
| `Scenarios.InitThroughRunCommand` | index.js:280-286 | a `git init ` line typed at the prompt initialises a new session |

## Left out

- Drawing with Snap.svg is not modelled. This covers the arrow marker and
  every text, line, circle and attribute call, including the connectors
  for branches, commits and merges. It is rendering through a library
  outside this model. Only the lifeline's end is kept, as the number
  `lifelineEnd`. A merge is therefore not recorded beyond its commit: the
  program stores no merge edge, it only draws one.
- The label styling done by `active`/`deactive` is reduced to the flag
  `isActive`.
- The terminal is left out:
  - the keydown listener, trimming, ignoring empty lines and the ArrowUp
    recall, with the `lastCommand` and unused `head` fields of `state`;
  - `addEntry`'s HTML building and scrolling;
  - `clear`'s reset of the log.

  These are DOM I/O.
- The help text is a constant whose layout has no bearing on the model.
- JavaScript object-key behaviour is not modelled. The table is a plain
  map with an insertion-ordered key list. The model leaves out:
  - the ordering of integer-like keys;
  - names found on `Object.prototype` (such as `git checkout toString`);
  - assignment to `__proto__`.
- JavaScript strings are sequences of UTF-16 code units, while here they
  are sequences of Dafny characters. `\s` is listed explicitly.
- Interpreter.Session.Execute: the contract gives every command's outcome
  but not its change to the table, the keys, the selection or the
  branches. Those are stated by the per-command method it dispatches to
  (`InitCmd`, `CommitCmd`, `BranchCmd`, `CheckoutCmd`, `CheckoutNewCmd`,
  `MergeCmd`) and are not repeated here.
- Interpreter.Session.RunGitCommand: as for `Execute`, the state change of a
  matched command other than `help` is left to the per-command method.
- Interpreter.Session.RunCommand: as for `Execute`, the state change of a
  git line is left to the per-command method.
