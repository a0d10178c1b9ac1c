/**
 * String helpers with the JavaScript meaning the controllers rely on:
 * truthiness of an optional string, `toLowerCase` (ASCII only), `split` on one
 * character, `startsWith`, and a case-insensitive literal infix test that
 * stands for a `$regex` match with the `i` option.
 */
module Text {
  import opened Wrappers

  /** A request field is truthy in JavaScript iff it is present and not "". */
  predicate Truthy(s: Option<string>) {
    s.Some? && s.value != ""
  }

  function LowerChar(c: char): char {
    if 'A' <= c <= 'Z' then (c as int + 32) as char else c
  }

  /** `toLowerCase`, restricted to ASCII letters. */
  function Lower(s: string): string {
    seq(|s|, i requires 0 <= i < |s| => LowerChar(s[i]))
  }

  lemma LowerIdempotent(s: string)
    ensures Lower(Lower(s)) == Lower(s)
  {
  }

  /** `p` occurs as a contiguous piece of `s`. */
  predicate IsInfix(p: string, s: string)
    decreases |s|
  {
    p <= s || (s != [] && IsInfix(p, s[1..]))
  }

  lemma {:induction false} InfixAt(p: string, s: string, k: nat)
    requires k + |p| <= |s| && s[k..k + |p|] == p
    ensures IsInfix(p, s)
    decreases k
  {
    if k == 0 {
      assert s[..|p|] == p;
    } else {
      assert s[1..][k - 1..k - 1 + |p|] == s[k..k + |p|];
      InfixAt(p, s[1..], k - 1);
    }
  }

  /** `hay` matches the literal pattern `needle`, ignoring case. */
  predicate ContainsIgnoringCase(hay: string, needle: string) {
    IsInfix(Lower(needle), Lower(hay))
  }

  /** The case of the pattern never matters. */
  lemma ContainsIgnoresPatternCase(hay: string, needle: string)
    ensures ContainsIgnoringCase(hay, Lower(needle)) == ContainsIgnoringCase(hay, needle)
  {
    LowerIdempotent(needle);
  }

  /** `s.split(c)` for a one-character separator. */
  function Split(s: string, c: char): (parts: seq<string>)
    ensures |parts| >= 1
  {
    if s == [] then [""]
    else
      var rest := Split(s[1..], c);
      if s[0] == c then [""] + rest else [[s[0]] + rest[0]] + rest[1..]
  }

  /** `parts.join(c)`. */
  function Join(parts: seq<string>, c: char): string
    requires |parts| >= 1
  {
    if |parts| == 1 then parts[0] else parts[0] + [c] + Join(parts[1..], c)
  }

  /** A string without the separator splits into itself alone. */
  lemma {:induction false} SplitFree(s: string, c: char)
    requires c !in s
    ensures Split(s, c) == [s]
  {
    if s != [] {
      SplitFree(s[1..], c);
      assert s == [s[0]] + s[1..];
    }
  }

  /** No piece of a split contains the separator. */
  lemma {:induction false} SplitPiecesAreFree(s: string, c: char)
    ensures forall k :: 0 <= k < |Split(s, c)| ==> c !in Split(s, c)[k]
  {
    if s != [] {
      SplitPiecesAreFree(s[1..], c);
    }
  }

  /** Joining the pieces of a split gives back the original string. */
  lemma {:induction false} JoinSplit(s: string, c: char)
    ensures Join(Split(s, c), c) == s
  {
    if s != [] {
      var rest := Split(s[1..], c);
      JoinSplit(s[1..], c);
      if s[0] == c {
        assert ([""] + rest)[1..] == rest;
      } else {
        var parts := [[s[0]] + rest[0]] + rest[1..];
        if |rest| > 1 {
          assert parts[1..] == rest[1..];
          assert Join(rest, c) == rest[0] + [c] + Join(rest[1..], c);
        }
        assert s == [s[0]] + s[1..];
      }
    }
  }

  /** Splitting at a separator that is known to be there. */
  lemma {:induction false} SplitAround(a: string, c: char, b: string)
    ensures Split(a + [c] + b, c) == Split(a, c) + Split(b, c)
    decreases |a|
  {
    var s := a + [c] + b;
    if a == [] {
      assert s == [c] + b;
      SplitCons(c, b, c);
    } else {
      var tail := a[1..] + [c] + b;
      assert s == [a[0]] + tail;
      SplitAround(a[1..], c, b);
      SplitCons(a[0], tail, c);
      assert a == [a[0]] + a[1..];
      SplitCons(a[0], a[1..], c);
      ConcatCase(a[0], c, Split(a[1..], c), Split(b, c));
    }
  }

  /** One step of `Split`, stated for a string built as `[x] + t`. */
  lemma SplitCons(x: char, t: string, c: char)
    ensures Split([x] + t, c) ==
      if x == c then [""] + Split(t, c) else [[x] + Split(t, c)[0]] + Split(t, c)[1..]
  {
    assert ([x] + t)[1..] == t;
  }

  /** The step of `SplitAround` on the lists of pieces alone. */
  lemma ConcatCase(x: char, c: char, r: seq<string>, q: seq<string>)
    requires |r| >= 1
    ensures (if x == c then [""] + (r + q) else [[x] + (r + q)[0]] + (r + q)[1..]) ==
            (if x == c then [""] + r else [[x] + r[0]] + r[1..]) + q
  {
    if x != c {
      assert (r + q)[0] == r[0];
      assert (r + q)[1..] == r[1..] + q;
    }
  }

  /** Split and join are inverse: pieces free of the separator come back unchanged. */
  lemma {:induction false} SplitJoin(parts: seq<string>, c: char)
    requires |parts| >= 1
    requires forall k :: 0 <= k < |parts| ==> c !in parts[k]
    ensures Split(Join(parts, c), c) == parts
    decreases |parts|
  {
    SplitFree(parts[0], c);
    if |parts| > 1 {
      var rest := parts[1..];
      assert forall k :: 0 <= k < |rest| ==> c !in rest[k] by {
        forall k | 0 <= k < |rest| ensures c !in rest[k] {
          assert rest[k] == parts[k + 1];
        }
      }
      SplitJoin(rest, c);
      SplitAround(parts[0], c, Join(rest, c));
      assert parts == [parts[0]] + rest;
    }
  }

  /** The last piece of a split is the text after the last separator. */
  lemma LastPiece(prefix: string, c: char, suffix: string)
    requires c !in suffix
    ensures Split(prefix + [c] + suffix, c)[|Split(prefix + [c] + suffix, c)| - 1] == suffix
  {
    SplitAround(prefix, c, suffix);
    SplitFree(suffix, c);
  }
}
