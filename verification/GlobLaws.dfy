/** What patterns mean, byte by byte: plain ones, a star between two plain ones, and classes. */
module GlobLaws {
  import opened Common
  import opened Glob

  /** No star and no opening bracket: every byte stands for itself, a question mark for any byte. */
  predicate Plain(p: seq<Byte>) { forall i :: 0 <= i < |p| ==> p[i] != 42 && p[i] != 91 }

  predicate Fits(name: seq<Byte>, p: seq<Byte>) {
    |name| == |p| && forall i :: 0 <= i < |p| ==> p[i] == 63 || p[i] == name[i]
  }

  lemma {:induction false} PlainFrom(name: seq<Byte>, pat: seq<Byte>, pi: nat, end: nat)
    requires pi <= end <= |pat| && Plain(pat[pi..end])
    ensures Matches(name, Tokens(pat, pi)) <==>
              && |name| >= end - pi && Fits(name[..end - pi], pat[pi..end])
              && Matches(name[end - pi..], Tokens(pat, end))
    decreases end - pi
  {
    if pi == end {
      assert name[0..] == name && name[..0] == pat[pi..end] == [];
    } else {
      var p, rest := pat[pi..end], pat[pi + 1..end];
      assert p[0] == pat[pi] && p[1..] == rest;
      assert forall i :: 0 <= i < |rest| ==> rest[i] == p[i + 1];
      assert !IsClass(pat, pi) && Next(pat, pi) == pi + 1;
      var ts := Tokens(pat, pi);
      assert ts[1..] == Tokens(pat, pi + 1);
      if name != [] {
        PlainFrom(name[1..], pat, pi + 1, end);
        if |name| >= end - pi {
          assert name[1..][end - pi - 1..] == name[end - pi..];
          FitsOneMore(name[..end - pi], pat[pi..end]);
          assert name[..end - pi][1..] == name[1..][..end - pi - 1];
        }
      }
    }
  }

  lemma FitsOneMore(name: seq<Byte>, p: seq<Byte>)
    requires name != [] && p != [] && |name| == |p|
    ensures Fits(name, p) <==> (p[0] == 63 || p[0] == name[0]) && Fits(name[1..], p[1..])
  {
    if Fits(name[1..], p[1..]) && (p[0] == 63 || p[0] == name[0]) {
      forall i | 0 <= i < |p| ensures p[i] == 63 || p[i] == name[i] {
        assert i > 0 ==> p[1..][i - 1] == p[i] && name[1..][i - 1] == name[i];
      }
    }
  }

  /** A plain pattern means exactly the names of its length that agree with it but for its question marks. */
  lemma PlainPattern(name: seq<Byte>, p: seq<Byte>)
    requires Plain(p)
    ensures Means(name, p) <==> Fits(name, p)
  {
    assert p[0..|p|] == p;
    PlainFrom(name, p, 0, |p|);
    if |name| == |p| {
      assert name[..|p|] == name;
    }
  }

  /** A star between two plain patterns means exactly the names that begin with the one and end with the other,
      the two not overlapping. */
  lemma StarBetween(name: seq<Byte>, a: seq<Byte>, b: seq<Byte>)
    requires Plain(a) && Plain(b)
    ensures Means(name, a + [42] + b) <==>
              |name| >= |a| + |b| && Fits(name[..|a|], a) && Fits(name[|name| - |b|..], b)
  {
    var p := a + [42] + b;
    assert p[0..|a|] == a;
    PlainFrom(name, p, 0, |a|);
    if |name| >= |a| {
      var rest := name[|a|..];
      var ts := Tokens(p, |a|);
      assert p[|a|] == 42 && ts[0] == Any && Next(p, |a|) == |a| + 1 && ts[1..] == Tokens(p, |a| + 1);
      forall k | 0 <= k <= |rest|
        ensures Matches(rest[k..], ts[1..]) <==> |rest| - k == |b| && Fits(rest[k..], b)
      {
        assert p[|a| + 1..|p|] == b;
        PlainFrom(rest[k..], p, |a| + 1, |p|);
        if |rest| - k == |b| {
          assert rest[k..][..|b|] == rest[k..];
        }
      }
      if |rest| >= |b| {
        assert rest[|rest| - |b|..] == name[|name| - |b|..];
        assert Matches(rest[|rest| - |b|..], ts[1..]) <==> Fits(name[|name| - |b|..], b);
      }
    }
  }

  lemma OneToken(c: Byte, p: seq<Byte>)
    requires p != [] && Next(p, 0) == |p| && !TokenAt(p, 0).Any?
    ensures Means([c], p) <==> Accepts(TokenAt(p, 0), c)
  {
    var ts := Tokens(p, 0);
    assert Tokens(p, |p|) == [] && ts == [TokenAt(p, 0)] + [];
    var rest := [c][1..];
    assert ts[1..] == [] && rest == [] && Matches(rest, ts[1..]);
  }

  /** A class of single members, negated by an exclamation mark or a caret; a closing bracket is a member when
      it comes first. */
  lemma {:induction false} Members(pat: seq<Byte>, start: nat, end: nat, k: nat, c: Byte)
    requires start <= k <= end <= |pat| && forall i :: k <= i < end ==> pat[i] != 45
    ensures Lists(Items(pat, start, end, k), c) <==> c in pat[k..end]
    decreases end - k
  {
    if k < end {
      Members(pat, start, end, k + 1, c);
      ListsFrom(pat, start, end, k, c);
      assert pat[k..end] == [pat[k]] + pat[k + 1..end];
    }
  }

  lemma ClosesAt(pat: seq<Byte>, pi: nat, e: nat)
    requires pi < |pat| && BodyOf(pat, pi) < e < |pat| && pat[e] == 93
    requires forall k :: BodyOf(pat, pi) < k < e ==> pat[k] != 93
    ensures ClosedAt(pat, pi) == e
  {
  }

  lemma ClassOfMembers(c: Byte, not: seq<Byte>, body: seq<Byte>)
    requires not == [] || not == [33] || not == [94]
    requires body != [] && (not == [] ==> body[0] != 33 && body[0] != 94)
    requires forall i :: 0 <= i < |body| ==> body[i] != 45 && (i > 0 ==> body[i] != 93)
    ensures Means([c], [91] + not + body + [93]) <==> ((c in body) != (not != []))
  {
    var p := [91] + not + body + [93];
    var start := 1 + |not|;
    var end := start + |body|;
    assert forall i :: start <= i < end ==> p[i] == body[i - start];
    assert BodyOf(p, 0) == start && (Negates(p, 0) <==> not != []);
    ClosesAt(p, 0, end);
    assert p[start..end] == body;
    Members(p, start, end, start, c);
    OneToken(c, p);
  }

  /** A range stands for the bytes from one end to the other, both included. */
  lemma ClassOfRange(c: Byte, lo: Byte, hi: Byte)
    requires lo != 33 && lo != 94 && hi != 93
    ensures Means([c], [91, lo, 45, hi, 93]) <==> lo <= c <= hi || c == lo
  {
    var p := [91, lo, 45, hi, 93];
    ClosesAt(p, 0, 4);
    ListsFrom(p, 1, 4, 1, c);
    ListsFrom(p, 1, 4, 2, c);
    assert Items(p, 1, 4, 4) == [];
    OneToken(c, p);
  }

  /** An opening bracket that is never closed is an opening bracket. */
  lemma UnclosedBracket(name: seq<Byte>)
    ensures Means(name, [91]) <==> name == [91]
  {
    var ts := Tokens([91], 0);
    assert !IsClass([91], 0) && ts == [Literal(91)] && ts[1..] == [];
    if name != [] && name[1..] == [] {
      assert name == [name[0]];
    }
  }
}
