/**
 * The few java.lang.String operations the core relies on: indexOf(char),
 * replace(char, char) and contains(CharSequence), over strings as seq<char>.
 */
module Text {

  /** String.indexOf(c): the first position of `c` in `s`, or -1 when absent. */
  function IndexOf(s: string, c: char): (i: int)
    ensures i == -1 <==> c !in s
    ensures i != -1 ==> 0 <= i < |s| && s[i] == c && c !in s[..i]
  {
    if s == [] then -1
    else if s[0] == c then 0
    else
      var j := IndexOf(s[1..], c);
      assert s[1..][..if j < 0 then 0 else j] == s[1..1 + if j < 0 then 0 else j];
      if j == -1 then -1 else j + 1
  }

  /** IndexOf finds a character that is preceded only by other characters. */
  lemma {:induction false} IndexOfAfter(a: string, c: char, b: string)
    requires c !in a
    ensures IndexOf(a + [c] + b, c) == |a|
  {
    var s := a + [c] + b;
    assert s[|a|] == c && s[..|a|] == a;
  }

  /** IndexOf only looks as far as the first occurrence. */
  lemma {:induction false} IndexOfPrefix(a: string, c: char, b: string)
    requires c in a
    ensures IndexOf(a + b, c) == IndexOf(a, c)
  {
    var i, j := IndexOf(a, c), IndexOf(a + b, c);
    assert (a + b)[..i] == a[..i] && (a + b)[i] == c;
    assert forall k :: 0 <= k < i ==> (a + b)[k] == a[..i][k];
    assert forall k :: 0 <= k < j ==> (a + b)[..j][k] == (a + b)[k];
  }

  /** String.replace(from, to): every `from` replaced by `to`, nothing else changed. */
  function Replace(s: string, from: char, to: char): (r: string)
    ensures |r| == |s|
    ensures forall i :: 0 <= i < |s| ==> r[i] == if s[i] == from then to else s[i]
    ensures from != to ==> from !in r
  {
    if s == [] then []
    else [if s[0] == from then to else s[0]] + Replace(s[1..], from, to)
  }

  /** Regrouping a concatenation, kept apart so that callers need not argue element by element. */
  lemma ConcatAssociative<T>(x: seq<T>, y: seq<T>, z: seq<T>)
    ensures x + (y + z) == x + y + z
  {
  }

  /** String.contains: `t` occurs at some position of `s`. */
  predicate Contains(s: string, t: string)
  {
    exists i :: 0 <= i <= |s| - |t| && OccursAt(s, t, i)
  }

  /** `t` is the slice of `s` that starts at position `i`. */
  predicate OccursAt(s: string, t: string, i: int)
  {
    0 <= i <= |s| - |t| && s[i..i + |t|] == t
  }
}
