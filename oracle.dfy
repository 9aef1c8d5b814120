/** Values shared by every module: optional values, the outcome of a
    remote lookup, and the opaque user identifier issued by the identity
    provider. Remote reads are not performed by the model; their outcome is
    passed in as a `Lookup` value. */
module Oracle {

  datatype Option<+T> = None | Some(value: T) {
    function GetOr(default: T): T {
      match this
      case Some(v) => v
      case None => default
    }
  }

  /** Outcome of a `.single()` row read: the row, no row (the backend's
      code PGRST116), or any other error with its message (possibly empty). */
  datatype Lookup<+T> = Found(value: T) | NotFound | Failed(message: string)

  /** Opaque user identifier; the model only compares it for equality. */
  type UserId = string

  /** JavaScript truthiness of an optional string: present and non-empty. */
  predicate Truthy(s: Option<string>) {
    s.Some? && s.value != ""
  }

  /** `e.message || fallback`: an empty message falls back. */
  function MessageOr(message: string, fallback: string): (r: string)
    ensures message != "" ==> r == message
    ensures message == "" ==> r == fallback
  {
    if message != "" then message else fallback
  }

  /** `a` is `b` with some entries left out, the rest kept in order. */
  predicate IsSubsequence<T(==)>(a: seq<T>, b: seq<T>)
  {
    if a == [] then true
    else if b == [] then false
    else if a[0] == b[0] then IsSubsequence(a[1..], b[1..])
    else IsSubsequence(a, b[1..])
  }

  /** A subsequence of a tail is a subsequence of the whole. */
  lemma {:induction false} SubsequenceOfTail<T>(a: seq<T>, b: seq<T>)
    requires b != [] && IsSubsequence(a, b[1..])
    ensures IsSubsequence(a, b)
    decreases |a| + |b|
  {
    if a != [] && a[0] == b[0] {
      SubsequenceDropHead(a, b[1..]);
    }
  }

  /** Dropping the first element keeps a subsequence. */
  lemma {:induction false} SubsequenceDropHead<T>(a: seq<T>, b: seq<T>)
    requires a != [] && IsSubsequence(a, b)
    ensures IsSubsequence(a[1..], b)
    decreases |a| + |b|
  {
    if a[0] != b[0] {
      SubsequenceDropHead(a, b[1..]);
    }
    if a[1..] != [] {
      SubsequenceOfTail(a[1..], b);
    }
  }

  /** `s.split(c)[0]`: the text before the first `c`, or all of `s`. */
  function TextBefore(s: string, c: char): (r: string)
    ensures r <= s && c !in r
    ensures |r| < |s| ==> s[|r|] == c
  {
    if s == [] || s[0] == c then [] else [s[0]] + TextBefore(s[1..], c)
  }

  /** The text after the first `c`, if `s` holds one. */
  function TextAfter(s: string, c: char): (r: Option<string>)
    ensures r.Some? <==> c in s
    ensures r.Some? ==> s == TextBefore(s, c) + [c] + r.value
  {
    if s == [] then None
    else if s[0] == c then Some(s[1..])
    else
      var r := TextAfter(s[1..], c);
      assert r.Some? ==> s == [s[0]] + (TextBefore(s[1..], c) + [c] + r.value);
      r
  }

  /** Splitting `p + [c] + rest` at its first `c`, when `p` holds none. */
  lemma {:induction false} TextSplitAt(p: string, c: char, rest: string)
    requires c !in p
    ensures TextBefore(p + [c] + rest, c) == p
    ensures TextAfter(p + [c] + rest, c) == Some(rest)
  {
    if p != [] {
      assert (p + [c] + rest)[1..] == p[1..] + [c] + rest;
      TextSplitAt(p[1..], c, rest);
    }
  }

  /** A leading text without `c` is kept before the first `c`. */
  lemma {:induction false} TextBeforePrefix(p: string, c: char, t: string)
    requires c !in p
    ensures TextBefore(p + t, c) == p + TextBefore(t, c)
  {
    if p == [] {
      assert p + t == t;
    } else {
      var s := p + t;
      assert s[0] == p[0] && s[0] != c;
      assert s[1..] == p[1..] + t;
      TextBeforePrefix(p[1..], c, t);
      assert TextBefore(s, c) == [p[0]] + (p[1..] + TextBefore(t, c));
      assert p + TextBefore(t, c) == [p[0]] + (p[1..] + TextBefore(t, c));
    }
  }

  /** A leading text without `c` does not change what follows the first `c`. */
  lemma {:induction false} TextAfterPrefix(p: string, c: char, t: string)
    requires c !in p
    ensures TextAfter(p + t, c) == TextAfter(t, c)
  {
    if p == [] {
      assert p + t == t;
    } else {
      var s := p + t;
      assert s[0] == p[0] && s[0] != c;
      assert s[1..] == p[1..] + t;
      TextAfterPrefix(p[1..], c, t);
    }
  }
}
