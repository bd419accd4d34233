/** Searching texts, as strstr() and strchr() do. */
module Substrings {
  import opened Common

  predicate OccursAt(s: string, t: string, i: int) {
    0 <= i <= |s| - |t| && s[i..i + |t|] == t
  }

  predicate Occurs(s: string, t: string) {
    exists i | 0 <= i <= |s| :: OccursAt(s, t, i)
  }

  /** strstr(): where the first occurrence starts. */
  function FirstOccurrence(s: string, t: string): (r: Option<nat>)
    ensures r.Some? <==> Occurs(s, t)
    ensures r.Some? ==> OccursAt(s, t, r.value) && forall i | 0 <= i < r.value :: !OccursAt(s, t, i)
  {
    if |s| < |t| then None
    else if s[..|t|] == t then assert OccursAt(s, t, 0); Some(0)
    else
      var later := FirstOccurrence(s[1..], t);
      assert forall i: nat :: OccursAt(s, t, i + 1) <==> OccursAt(s[1..], t, i) by {
        forall i: nat ensures OccursAt(s, t, i + 1) <==> OccursAt(s[1..], t, i) {
          OccursShifts(s, t, i);
        }
      }
      assert later.None? ==> forall i | 0 <= i <= |s| :: OccursAt(s, t, i) ==> i > 0 && OccursAt(s[1..], t, i - 1);
      assert forall i | 0 < i :: OccursAt(s, t, i) ==> OccursAt(s[1..], t, i - 1);
      if later.Some? then Some(later.value + 1) else None
  }

  lemma OccursShifts(s: string, t: string, i: nat)
    requires s != ""
    ensures OccursAt(s, t, i + 1) <==> OccursAt(s[1..], t, i)
  {
    if i + 1 <= |s| - |t| {
      assert s[i + 1..i + 1 + |t|] == s[1..][i..i + |t|];
    }
  }

  /** strchr(): where a character first stands. */
  function IndexOf(s: string, c: char): (r: Option<nat>)
    ensures r.Some? <==> c in s
    ensures r.Some? ==> r.value < |s| && s[r.value] == c && c !in s[..r.value]
  {
    if s == "" then None
    else if s[0] == c then Some(0)
    else
      var later := IndexOf(s[1..], c);
      assert s == [s[0]] + s[1..];
      if later.Some? then
        assert s[..later.value + 1] == [s[0]] + s[1..][..later.value];
        Some(later.value + 1)
      else None
  }

  lemma IndexAfter(a: string, c: char, b: string)
    requires c !in a
    ensures IndexOf(a + [c] + b, c) == Some(|a|)
  {
    var s := a + [c] + b;
    assert s[|a|] == c;
    assert forall i | 0 <= i < |a| :: s[i] == a[i] && a[i] in a;
    assert forall i | |a| < i <= |s| :: s[..i][|a|] == c;
  }

  lemma FirstAfter(a: string, t: string, b: string)
    requires t != "" && t[0] !in a
    ensures FirstOccurrence(a + t + b, t) == Some(|a|)
  {
    hide FirstOccurrence;
    var s := a + t + b;
    assert s[|a|..|a| + |t|] == t;
    assert OccursAt(s, t, |a|);
    assert forall i | 0 <= i < |a| :: s[i] == a[i] && a[i] in a;
    var i := FirstOccurrence(s, t).value;
    assert s[i..i + |t|][0] == s[i];
  }
}
