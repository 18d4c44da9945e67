/** The JavaScript string operations the handlers rely on: String.prototype.trim,
    split with a non-empty separator, and Array.prototype.join. */
module Text {

  /** The characters `trim` removes: WhiteSpace and LineTerminator of ECMAScript. */
  predicate IsWhitespace(c: char) {
    var n := c as int;
    n == 0x09 || n == 0x0A || n == 0x0B || n == 0x0C || n == 0x0D || n == 0x20
    || n == 0xA0 || n == 0x1680 || (0x2000 <= n <= 0x200A) || n == 0x2028
    || n == 0x2029 || n == 0x202F || n == 0x205F || n == 0x3000 || n == 0xFEFF
  }

  predicate AllWhitespace(s: string) {
    forall i :: 0 <= i < |s| ==> IsWhitespace(s[i])
  }

  /** Neither end of `s` is whitespace. */
  predicate IsTrimmed(s: string) {
    s == [] || (!IsWhitespace(s[0]) && !IsWhitespace(s[|s| - 1]))
  }

  function TrimStart(s: string): (r: string)
    ensures |r| <= |s|
  {
    if s != [] && IsWhitespace(s[0]) then TrimStart(s[1..]) else s
  }

  lemma {:induction false} TrimStartShape(s: string)
    ensures var r := TrimStart(s);
      && r == s[|s| - |r|..] && (r == [] || !IsWhitespace(r[0]))
      && AllWhitespace(s[..|s| - |r|])
  {
    if s != [] && IsWhitespace(s[0]) {
      TrimStartShape(s[1..]);
      var r := TrimStart(s[1..]);
      assert s[1..][..|s| - 1 - |r|] == s[1..|s| - |r|];
    }
  }

  function TrimEnd(s: string): (r: string)
    ensures |r| <= |s|
  {
    if s != [] && IsWhitespace(s[|s| - 1]) then TrimEnd(s[..|s| - 1]) else s
  }

  lemma {:induction false} TrimEndShape(s: string)
    ensures var r := TrimEnd(s);
      && r == s[..|r|] && (r == [] || !IsWhitespace(r[|r| - 1]))
      && AllWhitespace(s[|r|..])
  {
    if s != [] && IsWhitespace(s[|s| - 1]) {
      TrimEndShape(s[..|s| - 1]);
      var r := TrimEnd(s[..|s| - 1]);
      assert s[..|s| - 1][|r|..] + [s[|s| - 1]] == s[|r|..];
    }
  }

  /** `s.trim()`: `s` with its leading and trailing whitespace removed. */
  function Trim(s: string): (r: string)
    ensures IsTrimmed(r)
    ensures r == [] <==> AllWhitespace(s)
  {
    var r := TrimEnd(TrimStart(s));
    TrimSplits(s);
    r
  }

  lemma TrimSplits(s: string)
    ensures var t := TrimStart(s); var r := TrimEnd(t);
      && IsTrimmed(r) && AllWhitespace(s[..|s| - |t|]) && AllWhitespace(t[|r|..])
      && s == s[..|s| - |t|] + r + t[|r|..]
      && (r == [] <==> AllWhitespace(s))
      && forall c :: c in r ==> c in s
  {
    var t := TrimStart(s);
    var r := TrimEnd(t);
    TrimStartShape(s);
    TrimEndShape(t);
    assert IsTrimmed(r) by {
      if r != [] { assert r[0] == t[0]; }
    }
    var lead, trail := s[..|s| - |t|], t[|r|..];
    assert s == lead + t && t == r + trail;
    assert s == lead + r + trail;
    WhitespaceAround(lead, r, trail);
  }

  /** `trim` removes only whitespace, and only from the two ends. */
  lemma TrimRemovesEnds(s: string)
    ensures exists lead, trail :: s == lead + Trim(s) + trail && AllWhitespace(lead) && AllWhitespace(trail)
    ensures forall c :: c in Trim(s) ==> c in s
  {
    TrimSplits(s);
    var t := TrimStart(s);
    var lead, trail := s[..|s| - |t|], t[|Trim(s)|..];
    assert s == lead + Trim(s) + trail;
  }

  lemma WhitespaceAround(lead: string, r: string, trail: string)
    requires AllWhitespace(lead) && AllWhitespace(trail) && IsTrimmed(r)
    ensures r == [] <==> AllWhitespace(lead + r + trail)
    ensures forall c :: c in r ==> c in lead + r + trail
  {
    var s := lead + r + trail;
    if r != [] {
      assert s[|lead|] == r[0];
    } else {
      forall i | 0 <= i < |s| ensures IsWhitespace(s[i]) {
        if i < |lead| { assert s[i] == lead[i]; } else { assert s[i] == trail[i - |lead|]; }
      }
    }
    forall c | c in r ensures c in s {
      var k :| 0 <= k < |r| && r[k] == c;
      assert s[|lead| + k] == c;
    }
  }

  /** Whitespace in front of a trimmed, non-empty string is all `trim` removes. */
  lemma {:induction false} TrimAfterWhitespace(ws: string, p: string)
    requires AllWhitespace(ws) && p != [] && IsTrimmed(p)
    ensures Trim(ws + p) == p
  {
    TrimStartAfterWhitespace(ws, p);
  }

  lemma {:induction false} TrimStartAfterWhitespace(ws: string, p: string)
    requires AllWhitespace(ws) && p != [] && !IsWhitespace(p[0])
    ensures TrimStart(ws + p) == p
  {
    if ws != [] {
      assert (ws + p)[1..] == ws[1..] + p;
      TrimStartAfterWhitespace(ws[1..], p);
    } else {
      assert ws + p == p;
    }
  }

  /** `s.split(sep)` for a non-empty separator: the pieces between the
      leftmost non-overlapping occurrences of `sep`. */
  function SplitBy(s: string, sep: string): (r: seq<string>)
    requires |sep| > 0
    ensures |r| >= 1
    decreases |s|
  {
    if sep <= s then [""] + SplitBy(s[|sep|..], sep)
    else if s == [] then [""]
    else
      var rest := SplitBy(s[1..], sep);
      [[s[0]] + rest[0]] + rest[1..]
  }

  /** `pieces.join(sep)`: it starts with the first piece. */
  function Join(pieces: seq<string>, sep: string): (r: string)
    ensures |pieces| == 0 ==> r == ""
    ensures |pieces| > 0 ==> pieces[0] <= r
  {
    if |pieces| == 0 then ""
    else if |pieces| == 1 then pieces[0]
    else pieces[0] + sep + Join(pieces[1..], sep)
  }

  /** Joining the pieces of a split with the same separator gives back the string. */
  lemma {:induction false} JoinSplit(s: string, sep: string)
    requires |sep| > 0
    ensures Join(SplitBy(s, sep), sep) == s
    decreases |s|
  {
    if sep <= s {
      JoinSplit(s[|sep|..], sep);
      JoinSplitAtSeparator(s, sep);
    } else if s != [] {
      JoinSplit(s[1..], sep);
      JoinSplitAtChar(s, sep);
    }
  }

  lemma JoinSplitAtSeparator(s: string, sep: string)
    requires |sep| > 0 && sep <= s
    requires Join(SplitBy(s[|sep|..], sep), sep) == s[|sep|..]
    ensures Join(SplitBy(s, sep), sep) == s
  {
    var rest := SplitBy(s[|sep|..], sep);
    assert SplitBy(s, sep) == [""] + rest;
    assert ([""] + rest)[1..] == rest;
    assert Join([""] + rest, sep) == "" + sep + Join(rest, sep);
    assert "" + sep == sep;
    PrefixAndRest(s, |sep|, sep);
  }

  lemma JoinSplitAtChar(s: string, sep: string)
    requires |sep| > 0 && !(sep <= s) && s != []
    requires Join(SplitBy(s[1..], sep), sep) == s[1..]
    ensures Join(SplitBy(s, sep), sep) == s
  {
    var rest := SplitBy(s[1..], sep);
    assert SplitBy(s, sep) == [[s[0]] + rest[0]] + rest[1..];
    JoinFirstPiece(s[0], rest, sep);
    PrefixAndRest(s, 1, [s[0]]);
  }

  lemma PrefixAndRest(s: string, k: nat, p: string)
    requires k <= |s| && p == s[..k]
    ensures p + s[k..] == s
  {
  }

  /** Putting a character in front of the first piece puts it in front of the join. */
  lemma JoinFirstPiece(c: char, rest: seq<string>, sep: string)
    requires |rest| > 0
    ensures Join([[c] + rest[0]] + rest[1..], sep) == [c] + Join(rest, sep)
  {
    var r := [[c] + rest[0]] + rest[1..];
    if |rest| > 1 {
      assert r[1..] == rest[1..];
      assert Join(r, sep) == [c] + rest[0] + sep + Join(rest[1..], sep);
    }
  }

  /** Splitting when the first character of the separator never occurs. */
  lemma {:induction false} SplitWithoutSeparator(a: string, sep: string)
    requires |sep| > 0 && sep[0] !in a
    ensures SplitBy(a, sep) == [a]
    decreases |a|
  {
    if a != [] {
      assert !(sep <= a) by { assert a[0] != sep[0]; }
      SplitWithoutSeparator(a[1..], sep);
      assert [a[0]] + a[1..] == a;
    }
  }

  /** A separator-free piece followed by the separator splits off as one piece. */
  lemma {:induction false} SplitAfterPiece(a: string, sep: string, b: string)
    requires |sep| > 0 && sep[0] !in a
    ensures SplitBy(a + sep + b, sep) == [a] + SplitBy(b, sep)
    decreases |a|
  {
    var s := a + sep + b;
    if a == [] {
      assert s == sep + b;
      assert sep <= s;
      assert s[|sep|..] == b;
    } else {
      assert !(sep <= s) by { assert s[0] == a[0] != sep[0]; }
      assert s[1..] == a[1..] + sep + b;
      SplitAfterPiece(a[1..], sep, b);
      assert [a[0]] + a[1..] == a;
    }
  }

  /** Splitting a join gives back the pieces when no piece contains the
      separator's first character. */
  lemma {:induction false} SplitJoin(pieces: seq<string>, sep: string)
    requires |sep| > 0 && |pieces| > 0
    requires forall i :: 0 <= i < |pieces| ==> sep[0] !in pieces[i]
    ensures SplitBy(Join(pieces, sep), sep) == pieces
  {
    if |pieces| == 1 {
      SplitWithoutSeparator(pieces[0], sep);
    } else {
      SplitAfterPiece(pieces[0], sep, Join(pieces[1..], sep));
      SplitJoin(pieces[1..], sep);
      assert [pieces[0]] + pieces[1..] == pieces;
    }
  }

  /** Every piece of a split on a one-character separator is free of it. */
  lemma {:induction false} SplitPiecesAvoidSeparator(s: string, sep: string)
    requires |sep| == 1
    ensures forall i :: 0 <= i < |SplitBy(s, sep)| ==> sep[0] !in SplitBy(s, sep)[i]
    decreases |s|
  {
    var r := SplitBy(s, sep);
    if sep <= s {
      SplitPiecesAvoidSeparator(s[|sep|..], sep);
      assert r == [""] + SplitBy(s[|sep|..], sep);
    } else if s == [] {
    } else {
      SplitPiecesAvoidSeparator(s[1..], sep);
      var rest := SplitBy(s[1..], sep);
      assert s[0] != sep[0] by { assert !(sep <= s); assert sep == [sep[0]]; }
      assert r[0] == [s[0]] + rest[0];
      forall i | 1 <= i < |r| ensures sep[0] !in r[i] {
        assert r[i] == rest[i];
      }
    }
  }

  /** `sep` occurs nowhere in `p`. */
  predicate Avoids(p: string, sep: string) {
    forall k :: 0 <= k <= |p| ==> !(sep <= p[k..])
  }

  /** The first piece of a split is a prefix of the string. */
  lemma {:induction false} FirstPieceIsPrefix(s: string, sep: string)
    requires |sep| > 0
    ensures SplitBy(s, sep)[0] <= s
    decreases |s|
  {
    if !(sep <= s) && s != [] {
      FirstPieceIsPrefix(s[1..], sep);
      var rest := SplitBy(s[1..], sep);
      assert SplitBy(s, sep)[0] == [s[0]] + rest[0];
      assert s == [s[0]] + s[1..];
    }
  }

  /** A character put in front of a piece that avoids `sep` keeps it avoiding
      `sep`, unless `sep` now starts the piece. */
  lemma ConsAvoids(c: char, p: string, sep: string)
    requires |sep| > 0 && Avoids(p, sep) && !(sep <= [c] + p)
    ensures Avoids([c] + p, sep)
  {
    var q := [c] + p;
    forall k | 0 <= k <= |q| ensures !(sep <= q[k..]) {
      if k > 0 {
        assert q[k..] == p[k - 1..];
      }
    }
  }

  /** No piece of a split contains the separator, whatever its length. */
  lemma {:induction false} SplitPiecesAvoid(s: string, sep: string)
    requires |sep| > 0
    ensures forall i :: 0 <= i < |SplitBy(s, sep)| ==> Avoids(SplitBy(s, sep)[i], sep)
    decreases |s|
  {
    var r := SplitBy(s, sep);
    if sep <= s {
      SplitPiecesAvoid(s[|sep|..], sep);
      var rest := SplitBy(s[|sep|..], sep);
      assert r == [""] + rest;
      assert Avoids("", sep);
      forall i | 1 <= i < |r| ensures Avoids(r[i], sep) {
        assert r[i] == rest[i - 1];
      }
    } else if s == [] {
      assert Avoids("", sep);
    } else {
      SplitPiecesAvoid(s[1..], sep);
      FirstPieceIsPrefix(s, sep);
      var rest := SplitBy(s[1..], sep);
      assert r == [[s[0]] + rest[0]] + rest[1..];
      assert !(sep <= [s[0]] + rest[0]);
      ConsAvoids(s[0], rest[0], sep);
      forall i | 1 <= i < |r| ensures Avoids(r[i], sep) {
        assert r[i] == rest[i];
      }
    }
  }
}
