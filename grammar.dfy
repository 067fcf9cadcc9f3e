/** The command line grammar: `git`, optional blanks, a command keyword,
    optional blanks and a run of word characters, found anywhere in the
    line (the regular expression is not anchored). */
module Grammar {
  import opened Wrappers

  datatype Command = Init | CheckoutNew | Checkout | Commit | Branch | Merge | Help

  function Keyword(c: Command): string {
    match c
    case Init => "init"
    case CheckoutNew => "checkout -b"
    case Checkout => "checkout"
    case Commit => "commit"
    case Branch => "branch"
    case Merge => "merge"
    case Help => "help"
  }

  /** The alternatives of the keyword group, in the order they are tried. */
  const Alternatives: seq<Command> := [Init, CheckoutNew, Checkout, Commit, Branch, Merge, Help]

  /** The class `\s` of JavaScript regular expressions. */
  predicate IsSpace(c: char) {
    || c == ' ' || c == '\t' || c == '\n' || c == '\r' || c == '\U{B}' || c == '\U{C}'
    || c == '\U{A0}' || c == '\U{1680}' || ('\U{2000}' <= c <= '\U{200A}')
    || c == '\U{2028}' || c == '\U{2029}' || c == '\U{202F}' || c == '\U{205F}'
    || c == '\U{3000}' || c == '\U{FEFF}'
  }

  /** The class `\w`: ASCII letters, digits and underscore. */
  predicate IsWordChar(c: char) {
    ('a' <= c <= 'z') || ('A' <= c <= 'Z') || ('0' <= c <= '9') || c == '_'
  }

  predicate AllWordChars(s: string) {
    forall i :: 0 <= i < |s| ==> IsWordChar(s[i])
  }

  /** Length of the longest prefix of `s` inside the class: a greedy `*`. */
  function Run(s: string, inClass: char -> bool): (n: nat)
    ensures n <= |s|
    ensures forall i :: 0 <= i < n ==> inClass(s[i])
    ensures n < |s| ==> !inClass(s[n])
    decreases |s|
  {
    if s != [] && inClass(s[0]) then 1 + Run(s[1..], inClass) else 0
  }

  /** The first alternative (in `cs` order) whose keyword starts `t`. */
  function FirstAlternative(t: string, cs: seq<Command>): (r: Option<Command>)
    ensures r.None? ==> forall j :: 0 <= j < |cs| ==> !(Keyword(cs[j]) <= t)
    ensures r.Some? ==> exists k :: 0 <= k < |cs| && cs[k] == r.value && Keyword(cs[k]) <= t
                                    && forall j :: 0 <= j < k ==> !(Keyword(cs[j]) <= t)
    decreases |cs|
  {
    if cs == [] then None
    else if Keyword(cs[0]) <= t then Some(cs[0])
    else
      var r := FirstAlternative(t, cs[1..]);
      assert forall j :: 1 <= j < |cs| ==> cs[j] == cs[1..][j - 1];
      r
  }

  /** The regular expression matched at the very start of `s`: the command
      and the captured argument. Greedy choices are final here: every
      keyword starts with a letter, so giving back a blank never lets another
      alternative match, and the trailing `\s*(\w*)` always succeeds. */
  function MatchAt(s: string): (r: Option<(Command, string)>)
    ensures r.Some? ==> AllWordChars(r.value.1)
  {
    if !("git" <= s) then None
    else
      var rest := s[3..];
      var t := rest[Run(rest, IsSpace)..];
      match FirstAlternative(t, Alternatives)
      case None => None
      case Some(c) =>
        var u := t[|Keyword(c)|..];
        var v := u[Run(u, IsSpace)..];
        Some((c, v[..Run(v, IsWordChar)]))
  }

  /** `commandRe.exec`: the match at the leftmost start position that has one. */
  function Exec(s: string): (r: Option<(Command, string)>)
    ensures r.Some? ==> AllWordChars(r.value.1)
    decreases |s|
  {
    if MatchAt(s).Some? then MatchAt(s)
    else if s == [] then None
    else Exec(s[1..])
  }

  /** Position `i` is the leftmost one where the expression matches. */
  ghost predicate LeftmostAt(s: string, i: int) {
    0 <= i <= |s| && MatchAt(s[i..]).Some? && forall j :: 0 <= j < i ==> MatchAt(s[j..]).None?
  }

  /** Exec finds the leftmost match, and finds none exactly when no start
      position matches. */
  lemma {:induction false} ExecIsLeftmost(s: string)
    ensures Exec(s).Some? ==> exists i :: LeftmostAt(s, i) && MatchAt(s[i..]) == Exec(s)
    ensures Exec(s).None? <==> forall i :: 0 <= i <= |s| ==> MatchAt(s[i..]).None?
    decreases |s|
  {
    assert s[0..] == s;
    if MatchAt(s).Some? {
      assert LeftmostAt(s, 0);
    } else if s == [] {
      assert forall i :: 0 <= i <= |s| ==> s[i..] == s;
    } else {
      var t := s[1..];
      ExecIsLeftmost(t);
      assert Exec(s) == Exec(t);
      if Exec(t).Some? {
        var i :| LeftmostAt(t, i) && MatchAt(t[i..]) == Exec(t);
        assert s[i + 1..] == t[i..];
        forall j | 0 <= j < i + 1
          ensures MatchAt(s[j..]).None?
        {
          if j > 0 {
            assert s[j..] == t[j - 1..];
          }
        }
        assert LeftmostAt(s, i + 1);
      } else {
        forall i | 0 <= i <= |s|
          ensures MatchAt(s[i..]).None?
        {
          if i > 0 {
            assert s[i..] == t[i - 1..];
          }
        }
      }
    }
  }

  /** The `checkout -b` alternative is tried before `checkout`: it is chosen
      exactly when the text starts with it. */
  lemma CheckoutFlagTriedFirst(t: string)
    ensures FirstAlternative(t, Alternatives) == Some(CheckoutNew) <==> Keyword(CheckoutNew) <= t
  {
    if Keyword(CheckoutNew) <= t {
      assert t[0] == 'c';
      assert !(Keyword(Init) <= t);
    }
  }

  /** A canonical command line for a command and a word argument. */
  function Spell(c: Command, arg: string): string {
    "git " + Keyword(c) + " " + arg
  }

  /** Parsing a canonical line gives back the command and the argument. */
  lemma RoundTrip(c: Command, arg: string)
    requires AllWordChars(arg)
    ensures Exec(Spell(c, arg)) == Some((c, arg))
  {
    MatchAtSpell(c, arg);
  }

  lemma MatchAtSpell(c: Command, arg: string)
    requires AllWordChars(arg)
    ensures MatchAt(Spell(c, arg)) == Some((c, arg))
  {
    var k := Keyword(c);
    var t := k + (" " + arg);
    AfterGit(c, arg);
    AlternativeUnique(c, arg, t);
    AfterKeyword(k, arg);
  }

  /** A canonical line starts with `git`, and the blank run after it is
      exactly one blank, followed by the keyword. */
  lemma AfterGit(c: Command, arg: string)
    requires AllWordChars(arg)
    ensures var s := Spell(c, arg);
            var rest := s[3..];
            && "git" <= s && |s| >= 3
            && rest[Run(rest, IsSpace)..] == Keyword(c) + (" " + arg)
  {
    var s := Spell(c, arg);
    var t := Keyword(c) + (" " + arg);
    assert s == "git" + (" " + t);
    assert s[..3] == "git";
    var rest := s[3..];
    assert rest == " " + t;
    KeywordStartsWithLetter(c);
    SingleBlank(rest);
    assert rest[1..] == t;
  }

  /** After the keyword, one blank and the argument: the argument is captured. */
  lemma AfterKeyword(k: string, arg: string)
    requires AllWordChars(arg)
    ensures var u := (k + (" " + arg))[|k|..];
            var v := u[Run(u, IsSpace)..];
            v[..Run(v, IsWordChar)] == arg
  {
    var u := (k + (" " + arg))[|k|..];
    assert u == " " + arg;
    if |u| > 1 {
      assert u[1] == arg[0];
    }
    SingleBlank(u);
    var v := u[1..];
    assert v == arg;
    assert v[..Run(v, IsWordChar)] == arg;
  }

  lemma KeywordStartsWithLetter(c: Command)
    ensures |Keyword(c)| > 0 && IsWordChar(Keyword(c)[0])
  {
  }

  /** One blank followed by a non-blank is a blank run of length one. */
  lemma SingleBlank(w: string)
    requires |w| > 0 && w[0] == ' '
    requires |w| > 1 ==> IsWordChar(w[1])
    ensures Run(w, IsSpace) == 1
  {
    assert Run(w, IsSpace) == 1 + Run(w[1..], IsSpace);
    if |w| > 1 {
      assert w[1..][0] == w[1];
      assert !IsSpace(w[1]);
    }
  }

  /** A keyword differs from a text at some index, so it does not start it. */
  lemma NotPrefixAt(k: string, t: string, i: nat)
    requires i < |k|
    requires i >= |t| || k[i] != t[i]
    ensures !(k <= t)
  {
  }

  /** The alternative at `idx` is chosen when it starts `t` and none before it does. */
  lemma {:induction false} FirstAt(t: string, cs: seq<Command>, idx: nat)
    requires idx < |cs| && Keyword(cs[idx]) <= t
    requires forall j :: 0 <= j < idx ==> !(Keyword(cs[j]) <= t)
    ensures FirstAlternative(t, cs) == Some(cs[idx])
    decreases idx
  {
    if idx > 0 {
      assert !(Keyword(cs[0]) <= t);
      assert cs[1..][idx - 1] == cs[idx];
      forall j | 0 <= j < idx - 1
        ensures !(Keyword(cs[1..][j]) <= t)
      {
        assert cs[1..][j] == cs[j + 1];
      }
      FirstAt(t, cs[1..], idx - 1);
    }
  }

  function AlternativeIndex(c: Command): (i: nat)
    ensures i < |Alternatives| && Alternatives[i] == c
  {
    match c
    case Init => 0
    case CheckoutNew => 1
    case Checkout => 2
    case Commit => 3
    case Branch => 4
    case Merge => 5
    case Help => 6
  }

  /** An alternative tried before `c` does not start `Keyword(c) + " " + arg`. */
  lemma EarlierFails(c: Command, arg: string, t: string, j: nat)
    requires AllWordChars(arg)
    requires t == Keyword(c) + (" " + arg)
    requires j < AlternativeIndex(c)
    ensures !(Keyword(Alternatives[j]) <= t)
  {
    var k := Keyword(c);
    var kj := Keyword(Alternatives[j]);
    assert t[0] == k[0] && t[1] == k[1];
    if kj[0] != k[0] {
      NotPrefixAt(kj, t, 0);
    } else if kj[1] != k[1] {
      NotPrefixAt(kj, t, 1);
    } else {
      // only `checkout -b`, tried before `checkout`, shares two letters with it
      assert c == Checkout && j == 1;
      assert t[8] == ' ';
      if |t| > 9 {
        assert t[9] == arg[0];
      }
      NotPrefixAt(kj, t, 9);
    }
  }

  /** No alternative earlier than `c` starts `Keyword(c) + " " + arg`. */
  lemma AlternativeUnique(c: Command, arg: string, t: string)
    requires AllWordChars(arg)
    requires t == Keyword(c) + (" " + arg)
    ensures FirstAlternative(t, Alternatives) == Some(c)
  {
    var idx := AlternativeIndex(c);
    forall j | 0 <= j < idx
      ensures !(Keyword(Alternatives[j]) <= t)
    {
      EarlierFails(c, arg, t, j);
    }
    FirstAt(t, Alternatives, idx);
  }
}
