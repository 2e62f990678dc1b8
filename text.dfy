/**
 * The string primitives the application calls: `toLowerCase`, `trim` and
 * `includes`, on characters taken one at a time (ASCII case mapping, the
 * ASCII whitespace plus NBSP and BOM; the other Unicode space separators that
 * JavaScript's `trim` also removes are not modelled).
 */
module Text {

  /** The whitespace this model's `trim` removes: ASCII whitespace, NBSP and BOM. */
  predicate IsSpace(c: char) {
    c == ' ' || c == '\t' || c == '\n' || c == '\r' || c == '\U{000B}' || c == '\U{000C}'
    || c == '\U{00A0}' || c == '\U{FEFF}'
  }

  predicate AllSpace(s: string) {
    forall i :: 0 <= i < |s| ==> IsSpace(s[i])
  }

  /** No whitespace at either end: what `trim` leaves. */
  predicate NoEdgeSpace(s: string) {
    s == [] || (!IsSpace(s[0]) && !IsSpace(s[|s| - 1]))
  }

  function LowerChar(c: char): char {
    if 'A' <= c <= 'Z' then (c as int + 32) as char else c
  }

  predicate IsLower(s: string) {
    forall i :: 0 <= i < |s| ==> !('A' <= s[i] <= 'Z')
  }

  /** `toLowerCase`: each capital A-Z becomes its small letter, every other character is kept. */
  function Lower(s: string): (r: string)
    ensures |r| == |s|
    ensures forall i :: 0 <= i < |s| ==>
      r[i] as int == (if 'A' <= s[i] <= 'Z' then s[i] as int + 32 else s[i] as int)
  {
    seq(|s|, i requires 0 <= i < |s| => LowerChar(s[i]))
  }

  /** `trimStart`: drop leading whitespace. */
  function TrimStart(s: string): (r: string)
    ensures |r| <= |s| && r == s[|s| - |r|..]
    ensures forall i :: 0 <= i < |s| - |r| ==> IsSpace(s[i])
    ensures r == [] || !IsSpace(r[0])
    ensures r == [] <==> AllSpace(s)
    decreases |s|
  {
    if |s| > 0 && IsSpace(s[0]) then
      var r := TrimStart(s[1..]);
      assert s[1..][|s| - 1 - |r|..] == s[|s| - |r|..];
      forall i | 1 <= i < |s| - |r| ensures IsSpace(s[i]) {
        assert s[i] == s[1..][i - 1];
      }
      assert AllSpace(s[1..]) ==> AllSpace(s) by {
        if AllSpace(s[1..]) {
          forall i | 1 <= i < |s| ensures IsSpace(s[i]) { assert s[i] == s[1..][i - 1]; }
        }
      }
      r
    else s
  }

  /** `trimEnd`: drop trailing whitespace. */
  function TrimEnd(s: string): (r: string)
    ensures |r| <= |s| && r == s[..|r|]
    ensures forall i :: |r| <= i < |s| ==> IsSpace(s[i])
    ensures r == [] || !IsSpace(r[|r| - 1])
    decreases |s|
  {
    if |s| > 0 && IsSpace(s[|s| - 1]) then
      var r := TrimEnd(s[..|s| - 1]);
      assert s[..|s| - 1][..|r|] == s[..|r|];
      forall i | |r| <= i < |s| - 1 ensures IsSpace(s[i]) {
        assert s[i] == s[..|s| - 1][i];
      }
      r
    else s
  }

  /** `trim`: drop whitespace at both ends. */
  function Trim(s: string): (r: string)
    ensures NoEdgeSpace(r)
    ensures |r| <= |s|
    ensures r == [] <==> AllSpace(s)
  {
    var t := TrimStart(s);
    var r := TrimEnd(t);
    assert r != [] ==> r[0] == t[0];
    assert t != [] ==> r != [];
    r
  }

  /** `s` is its leading whitespace followed by `TrimStart(s)`. */
  lemma TrimStartSplit(s: string) returns (p: string)
    ensures AllSpace(p) && s == p + TrimStart(s)
  {
    var t := TrimStart(s);
    p := s[..|s| - |t|];
    forall i | 0 <= i < |p| ensures IsSpace(p[i]) { assert p[i] == s[i]; }
    assert s == p + t;
  }

  /** `t` is `TrimEnd(t)` followed by its trailing whitespace. */
  lemma TrimEndSplit(t: string) returns (q: string)
    ensures AllSpace(q) && t == TrimEnd(t) + q
  {
    var r := TrimEnd(t);
    q := t[|r|..];
    forall j | 0 <= j < |q| ensures IsSpace(q[j]) { assert q[j] == t[|r| + j]; }
    assert t == r + q;
  }

  /** Whitespace padding around a trimmed string, as in `s == p + Trim(s) + q`. */
  lemma TrimSplit(s: string) returns (p: string, q: string)
    ensures AllSpace(p) && AllSpace(q)
    ensures s == p + Trim(s) + q
  {
    p := TrimStartSplit(s);
    q := TrimEndSplit(TrimStart(s));
    ConcatAssoc(p, Trim(s), q);
  }

  /** `Trim(s)` is `s` with some leading and some trailing whitespace removed. */
  lemma TrimPadded(s: string)
    ensures exists p, q :: AllSpace(p) && AllSpace(q) && s == p + Trim(s) + q
  {
    var p, q := TrimSplit(s);
  }

  lemma ConcatAssoc(a: string, b: string, c: string)
    ensures a + (b + c) == a + b + c
  {
  }

  lemma {:induction false} TrimStartSkip(a: string, u: string)
    requires AllSpace(a)
    requires u == [] || !IsSpace(u[0])
    ensures TrimStart(a + u) == u
    decreases |a|
  {
    if a != [] {
      assert (a + u)[1..] == a[1..] + u;
      TrimStartSkip(a[1..], u);
    }
  }

  lemma {:induction false} TrimEndSkip(u: string, b: string)
    requires AllSpace(b)
    requires u == [] || !IsSpace(u[|u| - 1])
    ensures TrimEnd(u + b) == u
    decreases |b|
  {
    if b != [] {
      assert (u + b)[..|u + b| - 1] == u + b[..|b| - 1];
      TrimEndSkip(u, b[..|b| - 1]);
    }
  }

  /** A string padded with whitespace trims back to itself: `trim` is determined by its result. */
  lemma {:induction false} TrimOfPadded(a: string, t: string, b: string)
    requires AllSpace(a) && AllSpace(b) && NoEdgeSpace(t)
    ensures Trim(a + t + b) == t
  {
    if t == [] {
      assert a + t + b == (a + b) + [];
      TrimStartSkip(a + b, []);
      assert TrimStart(a + t + b) == [];
    } else {
      assert a + t + b == a + (t + b);
      TrimStartSkip(a, t + b);
      TrimEndSkip(t, b);
    }
  }

  lemma TrimIdempotent(s: string)
    ensures Trim(Trim(s)) == Trim(s)
  {
    TrimOfPadded([], Trim(s), []);
    assert [] + Trim(s) + [] == Trim(s);
  }

  /** Extra leading and trailing whitespace does not change what `trim` returns. */
  lemma AllSpaceConcat(x: string, y: string)
    requires AllSpace(x) && AllSpace(y)
    ensures AllSpace(x + y)
  {
  }

  lemma ConcatRegroup(a: string, p: string, t: string, q: string, b: string)
    ensures a + (p + t + q) + b == (a + p) + t + (q + b)
  {
  }

  lemma TrimIgnoresPadding(a: string, s: string, b: string)
    requires AllSpace(a) && AllSpace(b)
    ensures Trim(a + s + b) == Trim(s)
  {
    var p, q := TrimSplit(s);
    var t := Trim(s);
    var a', b' := a + p, q + b;
    ConcatRegroup(a, p, t, q, b);
    AllSpaceConcat(a, p);
    AllSpaceConcat(q, b);
    TrimOfPadded(a', t, b');
  }

  lemma LowerConcat(x: string, y: string)
    ensures Lower(x + y) == Lower(x) + Lower(y)
  {
  }

  lemma LowerIdempotent(s: string)
    ensures Lower(Lower(s)) == Lower(s)
    ensures IsLower(Lower(s))
  {
  }

  lemma LowerKeepsSpaces(p: string)
    requires AllSpace(p)
    ensures AllSpace(Lower(p))
  {
  }

  lemma LowerKeepsEdges(t: string)
    requires NoEdgeSpace(t)
    ensures NoEdgeSpace(Lower(t))
  {
    if t != [] {
      assert Lower(t)[0] == LowerChar(t[0]);
      assert Lower(t)[|t| - 1] == LowerChar(t[|t| - 1]);
    }
  }

  lemma LowerConcat3(p: string, t: string, q: string)
    ensures Lower(p + t + q) == Lower(p) + Lower(t) + Lower(q)
  {
    LowerConcat(p + t, q);
    LowerConcat(p, t);
  }

  /** Lowercasing and trimming commute: case mapping neither creates nor removes whitespace. */
  lemma LowerTrimCommute(s: string)
    ensures Lower(Trim(s)) == Trim(Lower(s))
  {
    var p, q := TrimSplit(s);
    var t := Trim(s);
    LowerConcat3(p, t, q);
    LowerKeepsSpaces(p);
    LowerKeepsSpaces(q);
    LowerKeepsEdges(t);
    TrimOfPadded(Lower(p), Lower(t), Lower(q));
  }

  /** `sub` appears in `s` starting at index `i`. */
  predicate OccursAt(s: string, sub: string, i: int) {
    0 <= i && i + |sub| <= |s| && s[i..i + |sub|] == sub
  }

  /** `s.includes(sub)`. */
  function Contains(s: string, sub: string): bool
    decreases |s|
  {
    if |sub| > |s| then false
    else if s[..|sub|] == sub then true
    else Contains(s[1..], sub)
  }

  /** `Contains` holds exactly when `sub` occurs somewhere in `s`. */
  lemma {:induction false} ContainsIff(s: string, sub: string)
    ensures Contains(s, sub) <==> exists i :: OccursAt(s, sub, i)
    decreases |s|
  {
    if |sub| > |s| {
    } else if s[..|sub|] == sub {
      assert OccursAt(s, sub, 0);
    } else {
      ContainsIff(s[1..], sub);
      if Contains(s[1..], sub) {
        var i :| OccursAt(s[1..], sub, i);
        assert s[1..][i..i + |sub|] == s[i + 1..i + 1 + |sub|];
        assert OccursAt(s, sub, i + 1);
      } else {
        forall i | OccursAt(s, sub, i) ensures false {
          assert i != 0;
          assert s[1..][i - 1..i - 1 + |sub|] == s[i..i + |sub|];
          assert OccursAt(s[1..], sub, i - 1);
        }
      }
    }
  }
}
