/**
 * The string primitives the chat loop relies on, following Python's `str`
 * methods: `isspace`, `lower`, `strip`, `split()` (no separator) and
 * `startswith`.
 */
module Text {

  /** Python's `str.isspace` for a single code point. */
  predicate IsSpace(c: char)
    ensures c == ' ' || c == '\t' || c == '\n' || c == '\r' ==> IsSpace(c)
    ensures IsSpace(c) ==> !('0' <= c <= '9') && !('a' <= c <= 'z') && !('A' <= c <= 'Z') && c != '/'
  {
    var n := c as int;
    || (9 <= n <= 13) || (28 <= n <= 32) || n == 0x85 || n == 0xA0 || n == 0x1680
    || (0x2000 <= n <= 0x200A) || n == 0x2028 || n == 0x2029 || n == 0x202F
    || n == 0x205F || n == 0x3000
  }

  predicate AllSpace(s: string) {
    forall i :: 0 <= i < |s| ==> IsSpace(s[i])
  }

  predicate NoSpace(s: string) {
    forall i :: 0 <= i < |s| ==> !IsSpace(s[i])
  }

  /** Neither the first nor the last character is whitespace. */
  predicate Trimmed(s: string) {
    s == [] || (!IsSpace(s[0]) && !IsSpace(s[|s| - 1]))
  }

  predicate StartsWith(s: string, prefix: string) {
    |prefix| <= |s| && s[..|prefix|] == prefix
  }

  predicate ContainsAt(s: string, t: string, k: nat) {
    k + |t| <= |s| && s[k..k + |t|] == t
  }

  ghost predicate Contains(s: string, t: string) {
    exists k: nat :: ContainsAt(s, t, k)
  }

  /**
   * Lower-casing of one code point: the ASCII capitals, the Latin-1 capitals
   * and the capitals U+0400-U+042F map to their small letters; every other
   * code point is left alone.
   */
  function LowerChar(c: char): char {
    var n := c as int;
    if 'A' <= c <= 'Z' then (n + 0x20) as char
    else if 0xC0 <= n <= 0xDE && n != 0xD7 then (n + 0x20) as char
    else if 0x410 <= n <= 0x42F then (n + 0x20) as char
    else if 0x400 <= n <= 0x40F then (n + 0x50) as char
    else c
  }

  function Lower(s: string): (r: string)
    ensures |r| == |s|
    ensures forall i :: 0 <= i < |s| ==> (IsSpace(r[i]) <==> IsSpace(s[i]))
  {
    seq(|s|, i requires 0 <= i < |s| => LowerChar(s[i]))
  }

  /** Leading whitespace removed. */
  function TrimStart(s: string): string {
    if s != [] && IsSpace(s[0]) then TrimStart(s[1..]) else s
  }

  /** Trailing whitespace removed. */
  function TrimEnd(s: string): string {
    if s != [] && IsSpace(s[|s| - 1]) then TrimEnd(s[..|s| - 1]) else s
  }

  /** Python's `str.strip()`. */
  function Strip(s: string): (r: string)
    ensures Trimmed(r) && |r| <= |s|
  {
    TrimStartShape(s);
    TrimEndShape(TrimStart(s));
    TrimEnd(TrimStart(s))
  }

  /** The key the FAQ matcher compares: `s.lower().strip()`. */
  function Normalize(s: string): string {
    Strip(Lower(s))
  }

  /** The longest prefix of `s` that holds no whitespace. */
  function Word(s: string): string {
    if s == [] || IsSpace(s[0]) then [] else [s[0]] + Word(s[1..])
  }

  /** Python's `str.split()`: the maximal runs of non-whitespace, in order. */
  function Split(s: string): (r: seq<string>)
    ensures r == [] <==> AllSpace(s)
    ensures |r| <= |s|
    decreases |s|
  {
    if s == [] then []
    else if IsSpace(s[0]) then
      assert forall i :: 1 <= i < |s| ==> s[i] == s[1..][i - 1];
      Split(s[1..])
    else
      var w := Word(s);
      WordShape(s);
      [w] + Split(s[|w|..])
  }

  /** `TrimStart(s)` is what follows the leading whitespace of `s`. */
  lemma {:induction false} TrimStartShape(s: string)
    ensures var r := TrimStart(s);
      && |r| <= |s| && r == s[|s| - |r|..] && AllSpace(s[..|s| - |r|])
      && (r == [] || !IsSpace(r[0]))
    decreases |s|
  {
    if s != [] && IsSpace(s[0]) {
      TrimStartShape(s[1..]);
      var r := TrimStart(s);
      assert s[..|s| - |r|] == [s[0]] + s[1..][..|s| - 1 - |r|];
    }
  }

  /** `TrimEnd(s)` is what precedes the trailing whitespace of `s`. */
  lemma {:induction false} TrimEndShape(s: string)
    ensures var r := TrimEnd(s);
      && |r| <= |s| && r == s[..|r|] && AllSpace(s[|r|..])
      && (r == [] || !IsSpace(r[|r| - 1]))
    decreases |s|
  {
    if s != [] && IsSpace(s[|s| - 1]) {
      var t := s[..|s| - 1];
      TrimEndShape(t);
      var r := TrimEnd(s);
      assert s[|r|..] == t[|r|..] + [s[|s| - 1]];
    }
  }

  /** `Word(s)` is a whitespace-free prefix of `s` that stops at whitespace or at the end. */
  lemma {:induction false} WordShape(s: string)
    ensures var w := Word(s);
      && |w| <= |s| && w == s[..|w|] && NoSpace(w) && (|w| == |s| || IsSpace(s[|w|]))
      && (s != [] && !IsSpace(s[0]) ==> w != [])
    decreases |s|
  {
    if s != [] && !IsSpace(s[0]) {
      WordShape(s[1..]);
    }
  }

  /** Every part of a split is a non-empty run without whitespace. */
  lemma {:induction false} SplitShape(s: string)
    ensures forall i :: 0 <= i < |Split(s)| ==> Split(s)[i] != [] && NoSpace(Split(s)[i])
    decreases |s|
  {
    if s != [] {
      if IsSpace(s[0]) {
        SplitShape(s[1..]);
      } else {
        var w := Word(s);
        WordShape(s);
        SplitShape(s[|w|..]);
        assert Split(s) == [w] + Split(s[|w|..]);
      }
    }
  }

  // ------------------------------------------------------------ slicing

  lemma SliceAfter(a: string, b: string, k: nat, len: nat)
    requires k + len <= |b|
    ensures (a + b)[|a| + k..|a| + k + len] == b[k..k + len]
  {
  }

  lemma SliceWithin(a: string, b: string, k: nat, len: nat)
    requires k + len <= |a|
    ensures (a + b)[k..k + len] == a[k..k + len]
  {
  }

  lemma SliceBefore(a: string, b: string)
    ensures (a + b)[..|a|] == a
  {
  }

  /** A piece found in the second of four concatenated parts is found, shifted, in the whole. */
  lemma ContainsInSecond(h: string, c: string, t: string, q: string, b: string, k: nat)
    requires ContainsAt(c, b, k)
    ensures ContainsAt(h + c + t + q, b, |h| + k)
  {
    assert h + c + t + q == h + (c + (t + q));
    SliceWithin(c, t + q, k, |b|);
    SliceAfter(h, c + (t + q), k, |b|);
  }

  /** Where each of four concatenated parts sits in the whole. */
  lemma FourParts(h: string, c: string, t: string, q: string)
    ensures var s := h + c + t + q;
      && s[..|h|] == h && s[|h|..|h| + |c|] == c
      && s[|h| + |c|..|h| + |c| + |t|] == t && s[|s| - |q|..] == q
  {
  }

  // ---------------------------------------------------------------- Strip

  lemma {:induction false} TrimStartOf(p: string, r: string)
    requires AllSpace(p) && (r == [] || !IsSpace(r[0]))
    ensures TrimStart(p + r) == r
    decreases |p|
  {
    if p == [] {
      assert p + r == r;
    } else {
      assert (p + r)[1..] == p[1..] + r;
      TrimStartOf(p[1..], r);
    }
  }

  lemma {:induction false} TrimEndOf(r: string, q: string)
    requires AllSpace(q) && (r == [] || !IsSpace(r[|r| - 1]))
    ensures TrimEnd(r + q) == r
    decreases |q|
  {
    if q == [] {
      assert r + q == r;
    } else {
      assert (r + q)[..|r + q| - 1] == r + q[..|q| - 1];
      TrimEndOf(r, q[..|q| - 1]);
    }
  }

  /** `Strip(s)` is the middle of `s` = whitespace `p` + trimmed text + whitespace `q`. */
  lemma StripParts(s: string) returns (p: string, q: string)
    ensures AllSpace(p) && AllSpace(q) && s == p + Strip(s) + q
  {
    var t := TrimStart(s);
    TrimStartShape(s);
    TrimEndShape(t);
    var r := TrimEnd(t);
    assert Strip(s) == r;
    p, q := s[..|s| - |t|], t[|r|..];
    SplitAt(t, |r|);
    SplitAt(s, |s| - |t|);
    assert s == p + (r + q);
  }

  lemma SplitAt(s: string, k: nat)
    requires k <= |s|
    ensures s == s[..k] + s[k..]
  {
  }

  /** The result of `Strip` has no whitespace at either end, and is empty exactly for blank input. */
  lemma StripShape(s: string)
    ensures Trimmed(Strip(s))
    ensures Strip(s) == [] <==> AllSpace(s)
  {
    var p, q := StripParts(s);
    var r := Strip(s);
    TrimStartShape(s);
    TrimEndShape(TrimStart(s));
    if r == [] {
      assert s == p + q;
      assert AllSpace(s) by {
        forall i | 0 <= i < |s| ensures IsSpace(s[i]) {
          if i < |p| { assert s[i] == p[i]; } else { assert s[i] == q[i - |p|]; }
        }
      }
    } else {
      assert TrimStart(s) != [];
      assert !IsSpace(s[|p|]) by { assert s[|p|] == r[0]; }
    }
  }

  /** Whatever whitespace surrounds a trimmed text, `Strip` yields that text. */
  lemma StripUnique(p: string, r: string, q: string)
    requires AllSpace(p) && AllSpace(q) && Trimmed(r)
    ensures Strip(p + r + q) == r
  {
    assert p + r + q == p + (r + q);
    if r == [] {
      assert r + q == q;
      TrimStartOf(p + q, []);
      assert p + q + [] == p + (r + q);
    } else {
      TrimStartOf(p, r + q);
      TrimEndOf(r, q);
    }
  }

  lemma StripIgnoresPadding(w1: string, s: string, w2: string)
    requires AllSpace(w1) && AllSpace(w2)
    ensures Strip(w1 + s + w2) == Strip(s)
  {
    var p, q := StripParts(s);
    StripShape(s);
    assert w1 + s + w2 == (w1 + p) + Strip(s) + (q + w2);
    StripUnique(w1 + p, Strip(s), q + w2);
  }

  lemma StripIdempotent(s: string)
    ensures Strip(Strip(s)) == Strip(s)
  {
    var r := Strip(s);
    StripShape(s);
    assert [] + r + [] == r;
    StripUnique([], r, []);
  }

  // ---------------------------------------------------------------- Lower

  lemma LowerCharKeepsSpace(c: char)
    ensures IsSpace(LowerChar(c)) <==> IsSpace(c)
    ensures LowerChar(LowerChar(c)) == LowerChar(c)
  {
  }

  lemma LowerAppend(a: string, b: string)
    ensures Lower(a + b) == Lower(a) + Lower(b)
  {
  }

  lemma LowerIdempotent(s: string)
    ensures Lower(Lower(s)) == Lower(s)
  {
    forall i | 0 <= i < |s| ensures Lower(Lower(s))[i] == Lower(s)[i] {
      LowerCharKeepsSpace(s[i]);
    }
  }

  lemma LowerKeepsShape(s: string)
    ensures AllSpace(s) ==> AllSpace(Lower(s))
    ensures Trimmed(s) ==> Trimmed(Lower(s))
  {
    forall i | 0 <= i < |s| ensures IsSpace(Lower(s)[i]) <==> IsSpace(s[i]) {
      LowerCharKeepsSpace(s[i]);
    }
  }

  /** Lower-casing and stripping commute, since lower-casing neither creates nor removes whitespace. */
  lemma LowerStripCommute(s: string)
    ensures Lower(Strip(s)) == Strip(Lower(s))
  {
    var p, q := StripParts(s);
    StripShape(s);
    LowerAppend(p + Strip(s), q);
    LowerAppend(p, Strip(s));
    LowerKeepsShape(p);
    LowerKeepsShape(q);
    LowerKeepsShape(Strip(s));
    StripUnique(Lower(p), Lower(Strip(s)), Lower(q));
  }

  // ------------------------------------------------------------ Normalize

  /** Surrounding whitespace never changes the matching key. */
  lemma NormalizeIgnoresPadding(w1: string, s: string, w2: string)
    requires AllSpace(w1) && AllSpace(w2)
    ensures Normalize(w1 + s + w2) == Normalize(s)
  {
    LowerAppend(w1 + s, w2);
    LowerAppend(w1, s);
    LowerKeepsShape(w1);
    LowerKeepsShape(w2);
    StripIgnoresPadding(Lower(w1), Lower(s), Lower(w2));
  }

  lemma NormalizeIdempotent(s: string)
    ensures Normalize(Normalize(s)) == Normalize(s)
  {
    LowerStripCommute(Lower(s));
    LowerIdempotent(s);
    StripIdempotent(Lower(s));
  }

  // ---------------------------------------------------------------- Split

  lemma {:induction false} WordOf(a: string, rest: string)
    requires NoSpace(a) && (rest == [] || IsSpace(rest[0]))
    ensures Word(a + rest) == a
    decreases |a|
  {
    if a == [] {
      assert a + rest == rest;
    } else {
      assert (a + rest)[1..] == a[1..] + rest;
      WordOf(a[1..], rest);
    }
  }

  lemma {:induction false} SplitSkipsSpace(ws: string, t: string)
    requires AllSpace(ws)
    ensures Split(ws + t) == Split(t)
    decreases |ws|
  {
    if ws == [] {
      assert ws + t == t;
    } else {
      assert (ws + t)[1..] == ws[1..] + t;
      SplitSkipsSpace(ws[1..], t);
    }
  }

  /** A text made of one word splits into that word alone. */
  lemma SplitWord(a: string)
    requires a != [] && NoSpace(a)
    ensures Split(a) == [a]
  {
    WordOf(a, []);
    assert a + [] == a;
    assert a[|a|..] == [];
  }

  /** Two words separated by whitespace split into exactly those two words. */
  lemma SplitPair(a: string, ws: string, b: string)
    requires a != [] && NoSpace(a) && b != [] && NoSpace(b)
    requires ws != [] && AllSpace(ws)
    ensures Split(a + ws + b) == [a, b]
  {
    var s := a + ws + b;
    assert s == a + (ws + b);
    WordOf(a, ws + b);
    assert s[|a|..] == ws + b;
    SplitSkipsSpace(ws, b);
    SplitWord(b);
  }

  /** One more whitespace character in front of whitespace is still whitespace. */
  lemma ConsSpace(c: char, p: string)
    requires IsSpace(c) && AllSpace(p)
    ensures AllSpace([c] + p)
  {
    assert forall i :: 1 <= i < |[c] + p| ==> ([c] + p)[i] == p[i - 1];
  }

  lemma ConsThree(c: char, p: string, x: string, q: string)
    ensures [c] + (p + x + q) == ([c] + p) + x + q
  {
  }

  lemma ConsFive(c: char, p: string, a: string, ws: string, b: string, q: string)
    ensures [c] + (p + a + ws + b + q) == ([c] + p) + a + ws + b + q
  {
  }

  lemma PrefixFour(w: string, ws: string, b: string, q: string)
    ensures w + (ws + b + q) == [] + w + ws + b + q
  {
  }

  /** A text that splits into one part is that part with whitespace around it. */
  lemma {:induction false} SplitOneParts(s: string) returns (p: string, q: string)
    requires |Split(s)| == 1
    ensures AllSpace(p) && AllSpace(q) && s == p + Split(s)[0] + q
    decreases |s|
  {
    var t := s[1..];
    if IsSpace(s[0]) {
      assert Split(s) == Split(t);
      var p', q' := SplitOneParts(t);
      ConsSpace(s[0], p');
      ConsThree(s[0], p', Split(t)[0], q');
      assert s == [s[0]] + t;
      p, q := [s[0]] + p', q';
    } else {
      var w := Word(s);
      WordShape(s);
      assert Split(s) == [w] + Split(s[|w|..]);
      SplitAt(s, |w|);
      p, q := [], s[|w|..];
    }
  }

  /** Text that starts with whitespace and splits into one part has non-empty whitespace before it. */
  lemma SpaceBeforePart(s: string) returns (ws: string, q: string)
    requires s != [] && IsSpace(s[0]) && |Split(s)| == 1
    ensures ws != [] && AllSpace(ws) && AllSpace(q) && s == ws + Split(s)[0] + q
  {
    SplitShape(s);
    var x := Split(s)[0];
    ws, q := SplitOneParts(s);
    assert !IsSpace(x[0]);
    assert ws != [];
  }

  /**
   * A text that splits into exactly two parts is the first part and the
   * second, separated by non-empty whitespace, with whitespace around them.
   */
  lemma {:induction false} SplitTwoParts(s: string) returns (p: string, ws: string, q: string)
    requires |Split(s)| == 2
    ensures AllSpace(p) && ws != [] && AllSpace(ws) && AllSpace(q)
    ensures s == p + Split(s)[0] + ws + Split(s)[1] + q
    decreases |s|
  {
    var t := s[1..];
    if IsSpace(s[0]) {
      assert Split(s) == Split(t);
      var p', ws', q' := SplitTwoParts(t);
      ConsSpace(s[0], p');
      ConsFive(s[0], p', Split(t)[0], ws', Split(t)[1], q');
      assert s == [s[0]] + t;
      p, ws, q := [s[0]] + p', ws', q';
    } else {
      var w := Word(s);
      WordShape(s);
      var rest := s[|w|..];
      assert Split(s) == [w] + Split(rest);
      SplitAt(s, |w|);
      ws, q := SpaceBeforePart(rest);
      PrefixFour(w, ws, Split(rest)[0], q);
      p := [];
    }
  }
}
