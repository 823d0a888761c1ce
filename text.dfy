/** The string operations the search filter relies on: lower-casing and
    substring containment. Lower-casing is modelled on ASCII letters only. */
module Text {

  /** Lower-cases one character: 'A'..'Z' become 'a'..'z', every other
      character is left as it is. */
  function LowerChar(c: char): char
  {
    if 'A' <= c <= 'Z' then (c as int + 32) as char else c
  }

  /** `String.lowercased()`, character by character. */
  function Lowercased(s: string): (r: string)
    ensures |r| == |s|
    ensures forall i :: 0 <= i < |s| ==> r[i] == LowerChar(s[i])
  {
    seq(|s|, i requires 0 <= i < |s| => LowerChar(s[i]))
  }

  /** `t` occurs in `s` starting at position `i`. */
  predicate OccursAt(s: string, t: string, i: int)
  {
    0 <= i && i + |t| <= |s| && s[i..i + |t|] == t
  }

  /** `s.contains(t)`: `t` is a contiguous substring of `s`. */
  predicate Contains(s: string, t: string)
  {
    exists i | 0 <= i <= |s| :: OccursAt(s, t, i)
  }

  /** Lower-casing a lower-cased string changes nothing. */
  lemma LowercasedIdempotent(s: string)
    ensures Lowercased(Lowercased(s)) == Lowercased(s)
  {
    var l := Lowercased(s);
    forall i | 0 <= i < |s|
      ensures Lowercased(l)[i] == l[i]
    {
      var c := s[i];
      if 'A' <= c <= 'Z' {
        assert l[i] as int == c as int + 32;
      }
    }
  }

  /** Lower-casing commutes with taking a slice. */
  lemma LowercasedSlice(s: string, i: int, j: int)
    requires 0 <= i <= j <= |s|
    ensures Lowercased(s)[i..j] == Lowercased(s[i..j])
  {
  }

  /** A verbatim occurrence survives lower-casing both strings: a title that
      contains the query as typed is found by the case-insensitive search. */
  lemma ContainsLowercased(s: string, t: string)
    requires Contains(s, t)
    ensures Contains(Lowercased(s), Lowercased(t))
  {
    var i :| 0 <= i <= |s| && OccursAt(s, t, i);
    LowercasedSlice(s, i, i + |t|);
    assert OccursAt(Lowercased(s), Lowercased(t), i);
  }

  /** Containment is transitive: a substring of a substring of `s` is a
      substring of `s`. */
  lemma ContainsTransitive(s: string, t: string, u: string)
    requires Contains(s, t) && Contains(t, u)
    ensures Contains(s, u)
  {
    var i :| 0 <= i <= |s| && OccursAt(s, t, i);
    var j :| 0 <= j <= |t| && OccursAt(t, u, j);
    forall k | 0 <= k < |u|
      ensures s[i + j..i + j + |u|][k] == u[k]
    {
      assert u[k] == t[j + k] == s[i + j + k];
    }
    assert OccursAt(s, u, i + j);
  }
}
