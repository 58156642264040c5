/** String operations the pages use: `toLowerCase`, `includes`, `new Set(...)`
    and the default `Array.prototype.sort` on strings. */
module Texts {
  import opened Domain

  /** `toLowerCase` on one character, restricted to ASCII letters. */
  function LowerChar(c: char): char
  {
    if 'A' <= c <= 'Z' then (c as int - 'A' as int + 'a' as int) as char else c
  }

  function ToLower(s: Text): (r: Text)
    ensures |r| == |s|
    ensures forall i :: 0 <= i < |s| ==> r[i] == LowerChar(s[i])
    ensures forall i :: 0 <= i < |r| ==> !('A' <= r[i] <= 'Z')
  {
    seq(|s|, i requires 0 <= i < |s| => LowerChar(s[i]))
  }

  lemma ToLowerIdempotent(s: Text)
    ensures ToLower(ToLower(s)) == ToLower(s)
  {
  }

  /** `t` occurs in `s` starting at position `i`. */
  predicate OccursAt(s: Text, t: Text, i: int)
  {
    0 <= i <= |s| - |t| && s[i..i + |t|] == t
  }

  /** `s.includes(t)`: `t` occurs in `s` at some position. */
  predicate Includes(s: Text, t: Text)
  {
    exists i :: 0 <= i <= |s| && OccursAt(s, t, i)
  }

  lemma IncludesEmpty(s: Text)
    ensures Includes(s, "")
  {
    assert OccursAt(s, "", 0);
  }

  lemma IncludesItself(s: Text)
    ensures Includes(s, s)
  {
    assert OccursAt(s, s, 0);
  }

  /** `field.toLowerCase().includes(term.toLowerCase())`: the search box test. */
  predicate ContainsIgnoringCase(field: Text, term: Text)
  {
    Includes(ToLower(field), ToLower(term))
  }

  /** An empty search term matches every field. */
  lemma EmptyTermMatches(field: Text)
    ensures ContainsIgnoringCase(field, "")
  {
    IncludesEmpty(ToLower(field));
  }

  /** The test ignores the case of the term and of the field. */
  lemma IgnoresCase(field: Text, term: Text)
    ensures ContainsIgnoringCase(field, term) == ContainsIgnoringCase(ToLower(field), term)
    ensures ContainsIgnoringCase(field, term) == ContainsIgnoringCase(field, ToLower(term))
  {
    ToLowerIdempotent(field);
    ToLowerIdempotent(term);
  }

  /** A field always matches a search for itself, in whatever case. */
  lemma FieldMatchesItself(field: Text)
    ensures ContainsIgnoringCase(field, field)
  {
    IncludesItself(ToLower(field));
  }

  /** `new Set(xs)` read back with `Array.from`: the first occurrence of each
      value, in order. */
  function Dedup(xs: seq<Text>): (r: seq<Text>)
    ensures forall i, j :: 0 <= i < j < |r| ==> r[i] != r[j]
    ensures forall x :: x in r <==> x in xs
  {
    DedupFrom(xs, [])
  }

  /** Appends to `seen` the elements of `xs` not seen before. */
  function DedupFrom(xs: seq<Text>, seen: seq<Text>): (r: seq<Text>)
    requires forall i, j :: 0 <= i < j < |seen| ==> seen[i] != seen[j]
    ensures forall i, j :: 0 <= i < j < |r| ==> r[i] != r[j]
    ensures forall x :: x in r <==> x in xs || x in seen
    decreases |xs|
  {
    if |xs| == 0 then seen
    else if xs[0] in seen then DedupFrom(xs[1..], seen)
    else DedupFrom(xs[1..], seen + [xs[0]])
  }

  /** JavaScript's default string comparison: lexicographic by character. */
  predicate LexLe(a: Text, b: Text)
    decreases |a|
  {
    |a| == 0 || (|b| > 0 && (a[0] < b[0] || (a[0] == b[0] && LexLe(a[1..], b[1..]))))
  }

  lemma {:induction false} LexLeTotal(a: Text, b: Text)
    ensures LexLe(a, b) || LexLe(b, a)
    decreases |a|
  {
    if |a| > 0 && |b| > 0 && a[0] == b[0] {
      LexLeTotal(a[1..], b[1..]);
    }
  }

  lemma {:induction false} LexLeTransitive(a: Text, b: Text, c: Text)
    requires LexLe(a, b) && LexLe(b, c)
    ensures LexLe(a, c)
    decreases |a|
  {
    if |a| > 0 && a[0] == b[0] && b[0] == c[0] {
      LexLeTransitive(a[1..], b[1..], c[1..]);
    }
  }

  lemma {:induction false} LexLeAntisymmetric(a: Text, b: Text)
    requires LexLe(a, b) && LexLe(b, a)
    ensures a == b
    decreases |a|
  {
    if |a| > 0 {
      LexLeAntisymmetric(a[1..], b[1..]);
      assert a == [a[0]] + a[1..] && b == [b[0]] + b[1..];
    }
  }

  ghost predicate SortedText(s: seq<Text>)
  {
    forall i, j :: 0 <= i < j < |s| ==> LexLe(s[i], s[j])
  }

  function InsertText(x: Text, s: seq<Text>): (r: seq<Text>)
    requires SortedText(s)
    ensures SortedText(r)
    ensures multiset(r) == multiset(s) + multiset{x}
  {
    if |s| == 0 then [x]
    else if LexLe(x, s[0]) then
      assert forall k :: 0 <= k < |s| ==> LexLe(x, s[k]) by {
        forall k | 0 <= k < |s| ensures LexLe(x, s[k]) {
          if k > 0 { LexLeTransitive(x, s[0], s[k]); }
        }
      }
      [x] + s
    else
      LexLeTotal(x, s[0]);
      var rest := InsertText(x, s[1..]);
      assert s == [s[0]] + s[1..];
      assert forall k :: 0 <= k < |rest| ==> LexLe(s[0], rest[k]) by {
        forall k | 0 <= k < |rest| ensures LexLe(s[0], rest[k]) {
          assert rest[k] in multiset(rest);
          if rest[k] != x {
            assert rest[k] in multiset(s[1..]);
            var m :| 0 <= m < |s[1..]| && s[1..][m] == rest[k];
            assert s[m + 1] == rest[k];
          }
        }
      }
      [s[0]] + rest
  }

  /** `xs.sort()` on strings. */
  function SortText(xs: seq<Text>): (r: seq<Text>)
    ensures SortedText(r)
    ensures multiset(r) == multiset(xs)
  {
    if |xs| == 0 then []
    else
      assert xs == [xs[0]] + xs[1..];
      InsertText(xs[0], SortText(xs[1..]))
  }
}
