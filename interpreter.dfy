/** The command interpreter: the table of branches, the selected branch, one
    method per command of the `commands` table, and the dispatch that turns
    a command line into result text. Exceptions of the program become the
    `Outcome` datatype. */
module Interpreter {
  import opened Wrappers
  import opened Layout
  import opened Colors
  import opened Graph
  import opened Grammar

  const Initialized: string := "Initialized empty Git repository"

  /** The message of the only `Error` the commands throw themselves. */
  const NotARepository: string :=
    "fatal: not a git repository (or any parent up to mount point /)\n Stopping at filesystem boundary (GIT_DISCOVERY_ACROSS_FILESYSTEM not set)."

  /** What every `TypeError` raised during dispatch is reported as. */
  const NotImplemented: string := "Is not implmented or is not a git command. See 'help'."

  /** The text of `help`; its exact layout is of no consequence here. */
  const HelpText: string :=
    "Commands aviables:\n            - help\n            - clear\n            - git init\n            - git checkout\n            - git checkout -b\n            - git commit\n            - git branch\n            - git merge\n        "

  function Switched(name: string): string {
    "Switched to branch '" + name + "'"
  }

  /** How a command ends: it returns a string or `undefined`, throws a
      `TypeError` (a property read on `undefined`/`null`, or a call of
      `undefined`), or throws an `Error` with a message. */
  datatype Outcome = Returned(value: Option<string>) | ThrewTypeError | ThrewError(message: string)

  /** The result text `runGitCommand` hands to the log. */
  function ResultText(o: Outcome): Option<string> {
    match o
    case Returned(v) => v
    case ThrewTypeError => Some(NotImplemented)
    case ThrewError(m) => Some(m)
  }

  // ----- the branch listing of `git branch` -----

  const MarkedPrefix: string := "<span class=\"active\">*   "
  const PlainPrefix: string := "<span>    "
  const LineSuffix: string := "</span>"

  /** One line of the listing: the current branch's name carries the marker. */
  function ListingLine(bname: string, activeName: string): string {
    if bname == activeName then MarkedPrefix + bname + LineSuffix else PlainPrefix + bname + LineSuffix
  }

  function ListingLines(keys: seq<string>, activeName: string): seq<string> {
    seq(|keys|, i requires 0 <= i < |keys| => ListingLine(keys[i], activeName))
  }

  /** `Array.prototype.join('\n')`. */
  function Join(lines: seq<string>): string
    decreases |lines|
  {
    if |lines| == 0 then ""
    else if |lines| == 1 then lines[0]
    else lines[0] + "\n" + Join(lines[1..])
  }

  /** The listing: one line per key of the table, in table order. */
  function Listing(keys: seq<string>, activeName: string): string {
    Join(ListingLines(keys, activeName))
  }

  /** The reference reading of a listing: cut it at every line break. */
  function Split(s: string): (r: seq<string>)
    ensures |r| > 0
    decreases |s|
  {
    if s == [] then [""]
    else
      var rest := Split(s[1..]);
      if s[0] == '\n' then [""] + rest else [[s[0]] + rest[0]] + rest[1..]
  }

  predicate NoBreak(s: string) {
    forall i :: 0 <= i < |s| ==> s[i] != '\n'
  }

  lemma {:induction false} SplitNoBreak(a: string, b: string)
    requires NoBreak(a)
    ensures Split(a) == [a]
    ensures Split(a + "\n" + b) == [a] + Split(b)
    decreases |a|
  {
    if a == [] {
      assert ([] + "\n" + b)[1..] == b;
    } else {
      assert NoBreak(a[1..]) by {
        forall i | 0 <= i < |a[1..]| ensures a[1..][i] != '\n' {
          assert a[1..][i] == a[i + 1];
        }
      }
      SplitNoBreak(a[1..], b);
      assert (a + "\n" + b)[1..] == a[1..] + "\n" + b;
      assert [a[0]] + a[1..] == a;
    }
  }

  /** Splitting a joined sequence of break-free lines gives the lines back. */
  lemma {:induction false} SplitJoin(lines: seq<string>)
    requires |lines| > 0
    requires forall i :: 0 <= i < |lines| ==> NoBreak(lines[i])
    ensures Split(Join(lines)) == lines
    decreases |lines|
  {
    if |lines| == 1 {
      SplitNoBreak(lines[0], "");
    } else {
      SplitNoBreak(lines[0], Join(lines[1..]));
      assert forall i :: 0 <= i < |lines[1..]| ==> NoBreak(lines[1..][i]) by {
        forall i | 0 <= i < |lines[1..]| ensures NoBreak(lines[1..][i]) {
          assert lines[1..][i] == lines[i + 1];
        }
      }
      SplitJoin(lines[1..]);
      assert [lines[0]] + lines[1..] == lines;
    }
  }

  lemma ListingLineNoBreak(bname: string, activeName: string)
    requires NoBreak(bname)
    ensures NoBreak(ListingLine(bname, activeName))
  {
    var l := ListingLine(bname, activeName);
    var p := if bname == activeName then MarkedPrefix else PlainPrefix;
    assert l == p + bname + LineSuffix;
    forall i | 0 <= i < |l| ensures l[i] != '\n' {
      if i < |p| {
        assert l[i] == p[i];
      } else if i < |p| + |bname| {
        assert l[i] == bname[i - |p|];
      } else {
        assert l[i] == LineSuffix[i - |p| - |bname|];
      }
    }
  }

  /** Every name of a non-empty table stands on a line of its own in the
      listing, in table order: cutting the listing at line breaks gives one
      line per name. */
  lemma ListingOneLinePerName(keys: seq<string>, activeName: string)
    requires |keys| > 0
    requires forall i :: 0 <= i < |keys| ==> NoBreak(keys[i])
    ensures |Split(Listing(keys, activeName))| == |keys|
    ensures forall i :: 0 <= i < |keys| ==> Split(Listing(keys, activeName))[i] == ListingLine(keys[i], activeName)
  {
    var lines := ListingLines(keys, activeName);
    forall i | 0 <= i < |lines| ensures NoBreak(lines[i]) {
      ListingLineNoBreak(keys[i], activeName);
    }
    SplitJoin(lines);
  }

  predicate Marked(line: string) {
    MarkedPrefix <= line
  }

  predicate Distinct(keys: seq<string>) {
    forall i, j :: 0 <= i < j < |keys| ==> keys[i] != keys[j]
  }

  /** Only the current branch's line carries the marker, and with distinct
      names at most one line does. */
  lemma OnlyCurrentMarked(keys: seq<string>, activeName: string)
    requires Distinct(keys)
    ensures forall i :: 0 <= i < |keys| ==> (Marked(ListingLines(keys, activeName)[i]) <==> keys[i] == activeName)
    ensures forall i, j :: 0 <= i < j < |keys| ==>
              !(Marked(ListingLines(keys, activeName)[i]) && Marked(ListingLines(keys, activeName)[j]))
  {
    forall i | 0 <= i < |keys|
      ensures Marked(ListingLines(keys, activeName)[i]) <==> keys[i] == activeName
    {
      var l := ListingLines(keys, activeName)[i];
      if keys[i] != activeName {
        assert l[5] == '>' && MarkedPrefix[5] == ' ';
      }
    }
  }

  /** Assignment to an object key: a new key goes last, an existing key keeps
      its place. */
  function AddKey(keys: seq<string>, k: string): (r: seq<string>)
    ensures keys <= r
    ensures forall x :: x in r <==> x in keys || x == k
    ensures Distinct(keys) ==> Distinct(r)
  {
    if k in keys then keys else keys + [k]
  }

  function SetOf(b: Option<Branch>): set<Branch> {
    if b.Some? then {b.value} else {}
  }

  /** The geometry of a child made by `branch` from `p` under `name`. */
  ghost predicate IsChildOf(c: Branch, p: Branch, name: string)
    reads c, p
  {
    && c.name == name && c.color == Color(name)
    && c.x == p.nextCommit + LifelineOffset
    && c.nextCommit == p.nextCommit + CursorOffset
    && c.y == p.y + ChildDrop + YOffset(p.name, name, |p.children|)
    && c.lifelineEnd == p.nextCommit + LifelineOffset + LifelineLength
    && c.commits == [] && c.children == []
  }

  /** The global `state`: the branch table (keys in insertion order) and the
      selected branch, which `null` and `undefined` both leave unset. */
  class Session {
    var keys: seq<string>
    var table: map<string, Branch>
    var selected: Option<Branch>
    /** Every branch this session has created. */
    ghost var Repr: set<Branch>

    /** The branches the session can reach: the table's and the selected
        one, which an overwritten entry may have left outside the table. */
    ghost function Objects(): set<Branch>
      reads this
    {
      table.Values + SetOf(selected)
    }

    ghost predicate Valid()
      reads this, Objects()
    {
      && Objects() <= Repr
      && Distinct(keys)
      && (forall k :: k in table <==> k in keys)
      && "" !in table
      && (forall b :: b in Objects() ==> b.Valid() && Ascending(b.commits) && b.nextCommit > 0)
      && (forall b :: b in Objects() ==> (b.isActive <==> selected == Some(b)))
    }

    constructor ()
      ensures Valid()
      ensures keys == [] && table == map[] && selected == None && Repr == {}
    {
      Repr := {};
      keys := [];
      table := map[];
      selected := None;
    }

    function Lookup(name: string): (r: Option<Branch>)
      reads this
      ensures r.Some? <==> name in table
      ensures r.Some? ==> r.value == table[name]
    {
      if name in table then Some(table[name]) else None
    }

    /** `state.branches[name] = b` for a branch nothing else refers to. */
    method Store(name: string, b: Branch)
      requires Valid()
      requires name != "" && b !in Repr
      requires b.Valid() && Ascending(b.commits) && b.nextCommit > 0 && !b.isActive
      modifies this`table, this`keys, this`Repr
      ensures Valid()
      ensures Repr == old(Repr) + {b}
      ensures table == old(table)[name := b]
      ensures keys == AddKey(old(keys), name)
    {
      ghost var before := Objects();
      assert selected != Some(b);
      table, keys, Repr := table[name := b], AddKey(keys, name), Repr + {b};
      assert Objects() <= before + {b};
    }

    /** The `selectedBranch` setter: deactivate the old selection, assign,
        then activate, which throws a TypeError when nothing was found. */
    method Select(b: Option<Branch>) returns (threw: bool)
      requires Valid()
      requires b.Some? ==> b.value in table.Values
      modifies this`selected, SetOf(selected)`isActive, SetOf(b)`isActive
      ensures Valid()
      ensures selected == b
      ensures threw <==> b.None?
      ensures b.Some? ==> b.value.isActive
      ensures old(selected).Some? && old(selected) != b ==> !old(selected).value.isActive
    {
      if selected.Some? {
        selected.value.Deactivate();
      }
      selected := b;
      if b.None? {
        return true;
      }
      b.value.Activate();
      threw := false;
    }

    /** `git init`: a fresh master at the fixed origin, stored under
        "master" (replacing any earlier one) and selected. */
    method InitCmd() returns (o: Outcome)
      requires Valid()
      modifies this, SetOf(selected)`isActive
      ensures Valid() && fresh(Repr - old(Repr))
      ensures o == Returned(Some(Initialized))
      ensures "master" in table && fresh(table["master"])
      ensures table == old(table)["master" := table["master"]]
      ensures keys == AddKey(old(keys), "master")
      ensures selected == Some(table["master"])
      ensures var m := table["master"];
              && m.name == "master" && m.color == MasterColor
              && m.x == 100 && m.y == 30 && m.nextCommit == 80 && m.lifelineEnd == 160
              && m.commits == [] && m.children == []
    {
      var m := new Branch("master", RootX, RootY, MasterColor);
      Store("master", m);
      var _ := Select(Some(m));
      o := Returned(Some(Initialized));
    }

    /** `git commit`: the fatal error without a selection, otherwise one
        default commit on the selected branch. */
    method CommitCmd() returns (o: Outcome)
      requires Valid()
      modifies SetOf(selected)
      ensures Valid()
      ensures selected.None? ==> o == ThrewError(NotARepository)
      ensures selected.Some? ==>
                var b := selected.value;
                && o == Returned(None)
                && b.nextCommit == old(b.nextCommit) + CommitStep
                && b.commits == old(b.commits) + [Point(b.nextCommit, b.y)]
                && b.lifelineEnd == b.nextCommit + LifelineOverhang
    {
      if selected.None? {
        return ThrewError(NotARepository);
      }
      var _ := selected.value.Commit(None);
      o := Returned(None);
    }

    /** `git branch [name]`: without a name, the listing (a TypeError when
        there are keys but no selection); with one, a child of the selected
        branch stored under the name, overwriting any entry there. */
    method BranchCmd(name: string) returns (o: Outcome)
      requires Valid()
      modifies this
      ensures Valid() && fresh(Repr - old(Repr))
      ensures selected == old(selected)
      ensures name == "" ==>
                && keys == old(keys) && table == old(table)
                && o == if selected.Some? then Returned(Some(Listing(keys, selected.value.name)))
                        else if keys == [] then Returned(Some(""))
                        else ThrewTypeError
      ensures name != "" && selected.None? ==>
                o == ThrewTypeError && keys == old(keys) && table == old(table)
      ensures name != "" && selected.Some? ==>
                && o == Returned(None)
                && name in table && fresh(table[name])
                && table == old(table)[name := table[name]]
                && keys == AddKey(old(keys), name)
                && IsChildOf(table[name], selected.value, name)
                && !table[name].isActive
    {
      if name == "" {
        if selected.Some? {
          return Returned(Some(Listing(keys, selected.value.name)));
        } else if keys == [] {
          return Returned(Some(Listing(keys, "")));
        }
        return ThrewTypeError;
      }
      if selected.None? {
        return ThrewTypeError;
      }
      var child := selected.value.Spawn(name, Color(name));
      Store(name, child);
      o := Returned(None);
    }

    /** `git checkout name`: select the entry; an unknown name leaves the
        selection unset and throws a TypeError. */
    method CheckoutCmd(name: string) returns (o: Outcome)
      requires Valid()
      modifies this`selected, Repr`isActive
      ensures Valid()
      ensures keys == old(keys) && table == old(table)
      ensures name in table ==> selected == Some(table[name]) && o == Returned(Some(Switched(name)))
      ensures name !in table ==> selected == None && o == ThrewTypeError
      ensures old(selected).Some? && selected != old(selected) ==> !old(selected).value.isActive
    {
      var threw := Select(Lookup(name));
      o := if threw then ThrewTypeError else Returned(Some(Switched(name)));
    }

    /** `git checkout -b name`: `branch name`, then `checkout name`. */
    method CheckoutNewCmd(name: string) returns (o: Outcome)
      requires Valid()
      modifies this, Repr`isActive
      ensures Valid() && fresh(Repr - old(Repr))
      ensures name == "" ==>
                o == ThrewTypeError && selected == None && keys == old(keys) && table == old(table)
      ensures name != "" && old(selected).None? ==>
                o == ThrewTypeError && selected == None && keys == old(keys) && table == old(table)
      ensures name != "" && old(selected).Some? ==>
                && o == Returned(Some(Switched(name)))
                && name in table && fresh(table[name])
                && table == old(table)[name := table[name]]
                && keys == AddKey(old(keys), name)
                && IsChildOf(table[name], old(selected).value, name)
                && selected == Some(table[name])
    {
      o := BranchCmd(name);
      if o.ThrewTypeError? {
        return;
      }
      o := CheckoutCmd(name);
    }

    /** `git merge to`: a TypeError without a selection; otherwise the
        selected branch merges the entry under `to`, and the merge commit
        lands on the selected branch. */
    method MergeCmd(to: string) returns (o: Outcome)
      requires Valid()
      modifies SetOf(selected)
      ensures Valid()
      ensures selected.None? ==> o == ThrewTypeError
      ensures selected.Some? ==>
                var b := selected.value;
                if to !in table || old(table[to].commits) == [] || old(b.commits) == [] then
                  && o == ThrewTypeError
                  && b.commits == old(b.commits) && b.nextCommit == old(b.nextCommit)
                  && b.lifelineEnd == old(b.lifelineEnd)
                else
                  var lastTo := old(table[to].commits[|table[to].commits| - 1].x);
                  var lastFrom := old(b.commits[|b.commits| - 1].x);
                  && o == Returned(None)
                  && b.commits == old(b.commits) + [Point(Max(lastTo, lastFrom) + CommitStep, b.y)]
    {
      if selected.None? {
        return ThrewTypeError;
      }
      var threw := selected.value.Merge(Lookup(to));
      o := if threw then ThrewTypeError else Returned(None);
    }

    /** What one entry of the `commands` table does with the captured
        argument in the current state: its return value or the exception it
        throws. */
    function CommandOutcome(c: Command, arg: string): (r: Outcome)
      reads this, Objects()
      ensures r.ThrewError? <==> c.Commit? && selected.None?
      ensures r.ThrewError? ==> r.message == NotARepository
      ensures c.Init? || c.Help? ==> r.Returned? && r.value.Some?
    {
      match c
      case Init => Returned(Some(Initialized))
      case Commit => if selected.None? then ThrewError(NotARepository) else Returned(None)
      case Branch =>
        if arg == "" then
          if selected.Some? then Returned(Some(Listing(keys, selected.value.name)))
          else if keys == [] then Returned(Some(""))
          else ThrewTypeError
        else if selected.None? then ThrewTypeError
        else Returned(None)
      case Checkout => if arg in table then Returned(Some(Switched(arg))) else ThrewTypeError
      case CheckoutNew =>
        if arg != "" && selected.Some? then Returned(Some(Switched(arg))) else ThrewTypeError
      case Merge =>
        if || selected.None? || arg !in table || table[arg].commits == []
           || selected.value.commits == []
        then ThrewTypeError
        else Returned(None)
      case Help => Returned(Some(HelpText))
    }

    /** What `runGitCommand` meets for a line: the command's outcome, or the
        `TypeError` of calling an undefined entry when nothing matched. */
    function LineOutcome(line: string): (r: Outcome)
      reads this, Objects()
      ensures Exec(line).None? ==> r == ThrewTypeError
      ensures r.ThrewError? ==> r.message == NotARepository
    {
      match Exec(line)
      case None => ThrewTypeError
      case Some((c, arg)) => CommandOutcome(c, arg)
    }

    /** One entry of the `commands` table, applied to the captured argument. */
    method Execute(c: Command, arg: string) returns (o: Outcome)
      requires Valid()
      modifies this, Repr
      ensures Valid() && fresh(Repr - old(Repr))
      ensures o == old(CommandOutcome(c, arg))
      ensures c.Help? ==> unchanged(this) && unchanged(Repr)
    {
      match c {
        case Init => o := InitCmd();
        case Commit => o := CommitCmd();
        case Branch => o := BranchCmd(arg);
        case Checkout => o := CheckoutCmd(arg);
        case CheckoutNew => o := CheckoutNewCmd(arg);
        case Merge => o := MergeCmd(arg);
        case Help => o := Returned(Some(HelpText));
      }
    }

    /** runGitCommand: match the line, run the command, and report a TypeError
        (including the call of an undefined command when nothing matched)
        as the not-implemented text. */
    method RunGitCommand(line: string) returns (result: Option<string>)
      requires Valid()
      modifies this, Repr
      ensures Valid() && fresh(Repr - old(Repr))
      ensures result == ResultText(old(LineOutcome(line)))
      ensures Exec(line).None? ==> result == Some(NotImplemented) && unchanged(this) && unchanged(Repr)
      ensures Exec(line).Some? && Exec(line).value.0.Help? ==> unchanged(this) && unchanged(Repr)
    {
      ghost var expected := LineOutcome(line);
      var o: Outcome;
      match Exec(line) {
        case None => o := ThrewTypeError;
        case Some((c, arg)) => o := Execute(c, arg);
      }
      assert o == expected;
      result := ResultText(o);
    }

    /** runCommand: the bare utilities `help` and `clear`, else a git command.
        Clearing the log is the terminal's business; it yields no text. */
    method RunCommand(line: string) returns (result: Option<string>)
      requires Valid()
      modifies this, Repr
      ensures Valid() && fresh(Repr - old(Repr))
      ensures line == "help" ==> result == Some(HelpText) && unchanged(this) && unchanged(Repr)
      ensures line == "clear" ==> result == None && unchanged(this) && unchanged(Repr)
      ensures line != "help" && line != "clear" ==> result == ResultText(old(LineOutcome(line)))
    {
      if line == "help" {
        result := Some(HelpText);
      } else if line == "clear" {
        result := None;
      } else {
        result := RunGitCommand(line);
      }
    }
  }
}
