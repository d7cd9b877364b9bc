/**
 * The case-insensitive search every list page runs:
 * `field.toLowerCase().includes(searchTerm.toLowerCase())`.
 */
module Text {

  /** An upper-case letter of Latin-1: A-Z and the accented capitals À..Þ (but not ×). */
  predicate IsUpper(c: char) {
    ('A' <= c <= 'Z') || ('À' <= c <= 'Þ' && c != '×')
  }

  /** `toLowerCase` on one character of Latin-1. */
  function LowerChar(c: char): (d: char)
    ensures !IsUpper(d)
    ensures IsUpper(c) ==> d as int == c as int + 32
    ensures !IsUpper(c) ==> d == c
  {
    if IsUpper(c) then (c as int + 32) as char else c
  }

  /** `toLowerCase` on a string. */
  function Lower(s: string): (r: string)
    ensures |r| == |s|
    ensures forall i :: 0 <= i < |s| ==> r[i] == LowerChar(s[i])
  {
    if |s| == 0 then "" else [LowerChar(s[0])] + Lower(s[1..])
  }

  /** Lower-casing twice is lower-casing once. */
  lemma LowerIdempotent(s: string)
    ensures Lower(Lower(s)) == Lower(s)
  {
    var l := Lower(s);
    assert forall i :: 0 <= i < |l| ==> LowerChar(l[i]) == l[i];
  }

  /** `hay.includes(needle)`: `needle` occurs in `hay` as a contiguous substring. */
  predicate Contains(hay: string, needle: string) {
    needle <= hay || (|hay| > 0 && Contains(hay[1..], needle))
  }

  /** `needle` occurs in `hay` starting at position `i`. */
  predicate OccursAt(hay: string, needle: string, i: int) {
    0 <= i && i + |needle| <= |hay| && hay[i..i + |needle|] == needle
  }

  /** `includes` holds exactly when some position starts an occurrence. */
  lemma {:induction false} ContainsAt(hay: string, needle: string)
    ensures Contains(hay, needle) <==> exists i :: OccursAt(hay, needle, i)
  {
    if needle <= hay {
      assert OccursAt(hay, needle, 0);
    } else if |hay| > 0 {
      ContainsAt(hay[1..], needle);
      if exists i :: OccursAt(hay, needle, i) {
        var i :| OccursAt(hay, needle, i);
        assert i != 0;
        assert OccursAt(hay[1..], needle, i - 1);
      }
      if exists i :: OccursAt(hay[1..], needle, i) {
        var i :| OccursAt(hay[1..], needle, i);
        assert OccursAt(hay, needle, i + 1);
      }
    }
  }

  /** Every string includes the empty string. */
  lemma EmptyTermContained(hay: string)
    ensures Contains(hay, "")
  {
  }

  /** The case-insensitive test of one field against the search term. */
  predicate FieldMatches(field: string, term: string) {
    Contains(Lower(field), Lower(term))
  }

  /** The empty search term matches every field. */
  lemma EmptyTermMatches(field: string)
    ensures FieldMatches(field, "")
  {
    assert Lower("") == "";
  }

  /** Matching ignores the case of the search term and of the field. */
  lemma CaseInsensitive(field: string, term: string)
    ensures FieldMatches(field, term) == FieldMatches(field, Lower(term))
    ensures FieldMatches(field, term) == FieldMatches(Lower(field), term)
  {
    LowerIdempotent(term);
    LowerIdempotent(field);
  }

  /** A field always matches a search for its own text, in any case. */
  lemma {:induction false} FieldMatchesItself(field: string)
    ensures FieldMatches(field, field)
  {
    assert Lower(field) <= Lower(field);
  }
}
