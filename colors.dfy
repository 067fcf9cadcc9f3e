/** Display colour of a branch, derived from fragments of its name. */
module Colors {
  /** Known name fragments and their colours, in the key order the
      derivation visits them. */
  const Palette: seq<(string, string)> :=
    [("feature", "violet"), ("master", "green"), ("hotfix", "red"), ("dev", "blue")]

  const MasterColor: string := "green"

  /** String.prototype.includes: `t` occurs somewhere in `s` (the empty
      string occurs everywhere). */
  predicate Includes(s: string, t: string)
    decreases |s|
  {
    t <= s || (s != [] && Includes(s[1..], t))
  }

  /** `t` occurs in `s` starting at index `i`. */
  ghost predicate OccursAt(s: string, t: string, i: int) {
    0 <= i && i + |t| <= |s| && s[i..i + |t|] == t
  }

  /** `Includes` agrees with the reference definition: some occurrence exists. */
  lemma {:induction false} IncludesIsSubstring(s: string, t: string)
    ensures Includes(s, t) <==> exists i :: OccursAt(s, t, i)
    decreases |s|
  {
    if t <= s {
      assert OccursAt(s, t, 0);
    } else if s == [] {
      assert forall i :: !OccursAt(s, t, i);
    } else {
      forall i | i > 0 && OccursAt(s, t, i)
        ensures OccursAt(s[1..], t, i - 1)
      {
        assert s[i..i + |t|] == s[1..][i - 1..i - 1 + |t|];
      }
      IncludesIsSubstring(s[1..], t);
      if Includes(s[1..], t) {
        var i :| OccursAt(s[1..], t, i);
        assert s[i + 1..i + 1 + |t|] == s[1..][i..i + |t|];
        assert OccursAt(s, t, i + 1);
      }
    }
  }

  /** A non-empty fragment whose first character does not occur in `s` is
      not included in it. */
  lemma {:induction false} HeadMissing(s: string, t: string)
    requires t != [] && t[0] !in s
    ensures !Includes(s, t)
    decreases |s|
  {
    if s != [] {
      assert s[0] != t[0];
      HeadMissing(s[1..], t);
    }
  }

  /** The left fold `keys.reduce(...)`: each key that occurs in the name
      replaces the value so far by its colour. */
  function Reduce(name: string, keys: seq<(string, string)>, acc: string): string
    decreases |keys|
  {
    if keys == [] then acc
    else Reduce(name, keys[1..], if Includes(name, keys[0].0) then keys[0].1 else acc)
  }

  /** getColor */
  function Color(name: string): string {
    Reduce(name, Palette, "")
  }

  /** The fold yields the colour of the LAST key that occurs in the name,
      or the start value when none does. */
  lemma {:induction false} ReduceIsLastMatch(name: string, keys: seq<(string, string)>, acc: string)
    ensures (forall i :: 0 <= i < |keys| ==> !Includes(name, keys[i].0)) ==> Reduce(name, keys, acc) == acc
    ensures forall i :: 0 <= i < |keys| && Includes(name, keys[i].0)
                        && (forall j :: i < j < |keys| ==> !Includes(name, keys[j].0))
                        ==> Reduce(name, keys, acc) == keys[i].1
    decreases |keys|
  {
    if keys != [] {
      var acc' := if Includes(name, keys[0].0) then keys[0].1 else acc;
      ReduceIsLastMatch(name, keys[1..], acc');
      forall i | 0 <= i < |keys| && Includes(name, keys[i].0)
                 && (forall j :: i < j < |keys| ==> !Includes(name, keys[j].0))
        ensures Reduce(name, keys, acc) == keys[i].1
      {
        if i > 0 {
          assert keys[1..][i - 1] == keys[i];
          forall j | i - 1 < j < |keys| - 1
            ensures !Includes(name, keys[1..][j].0)
          {
            assert keys[1..][j] == keys[j + 1];
          }
        } else {
          forall j | 0 <= j < |keys| - 1
            ensures !Includes(name, keys[1..][j].0)
          {
            assert keys[1..][j] == keys[j + 1];
          }
        }
      }
      if forall i :: 0 <= i < |keys| ==> !Includes(name, keys[i].0) {
        forall j | 0 <= j < |keys| - 1
          ensures !Includes(name, keys[1..][j].0)
        {
          assert keys[1..][j] == keys[j + 1];
        }
      }
    }
  }

  /** getColor's result: the colour of the last palette key occurring in the
      name, or the empty string exactly when no key occurs. */
  lemma ColorIsLastMatch(name: string)
    ensures Color(name) == "" <==> forall i :: 0 <= i < |Palette| ==> !Includes(name, Palette[i].0)
    ensures forall i :: 0 <= i < |Palette| && Includes(name, Palette[i].0)
                        && (forall j :: i < j < |Palette| ==> !Includes(name, Palette[j].0))
                        ==> Color(name) == Palette[i].1
  {
    ReduceIsLastMatch(name, Palette, "");
    if exists i :: 0 <= i < |Palette| && Includes(name, Palette[i].0) {
      var k :| 0 <= k < |Palette| && Includes(name, Palette[k].0);
      LastMatchExists(name, k);
    }
  }

  /** If some key occurs, a last occurring key exists. */
  lemma LastMatchExists(name: string, k: nat)
    requires k < |Palette| && Includes(name, Palette[k].0)
    ensures exists i :: k <= i < |Palette| && Includes(name, Palette[i].0)
                        && forall j :: i < j < |Palette| ==> !Includes(name, Palette[j].0)
    decreases |Palette| - k
  {
    if exists j :: k < j < |Palette| && Includes(name, Palette[j].0) {
      var j :| k < j < |Palette| && Includes(name, Palette[j].0);
      LastMatchExists(name, j);
    }
  }

  /** A name carrying two fragments takes the colour of the later key:
      "feature-dev" is blue, not violet. */
  lemma MixedNameTakesLastColor()
    ensures Color("feature-dev") == "blue"
  {
    var name := "feature-dev";
    assert OccursAt(name, "dev", 8);
    IncludesIsSubstring(name, "dev");
    assert Includes(name, Palette[3].0);
    ColorIsLastMatch(name);
  }

  /** `init` colours master with the colour `getColor` derives for it. */
  lemma MasterColorDerived()
    ensures Color("master") == MasterColor
  {
    var name := "master";
    assert OccursAt(name, "master", 0);
    IncludesIsSubstring(name, "master");
    HeadMissing(name, "hotfix");
    HeadMissing(name, "dev");
    assert Includes(name, Palette[1].0);
    assert !Includes(name, Palette[2].0) && !Includes(name, Palette[3].0);
    ColorIsLastMatch(name);
  }
}
