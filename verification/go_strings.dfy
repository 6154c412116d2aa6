/**
 * The few functions of Go's `strings` package that the router and the
 * request handlers rely on, on `string` = `seq<char>`. Only the separator
 * "/" is ever used with Split, so it is fixed here.
 */
module GoStrings {

  const Slash: char := '/'

  /** strings.Split(s, "/"): the pieces between separators; empty pieces are
      kept, so "" splits into [""] and "a/" into ["a", ""]. */
  function Split(s: string): (r: seq<string>)
    ensures |r| >= 1
    ensures forall i :: 0 <= i < |r| ==> Slash !in r[i]
  {
    if s == [] then [""]
    else if s[0] == Slash then [""] + Split(s[1..])
    else
      var t := Split(s[1..]);
      [[s[0]] + t[0]] + t[1..]
  }

  /** strings.Join(parts, "/"): the inverse of Split. */
  function Join(parts: seq<string>): string
    requires |parts| >= 1
  {
    if |parts| == 1 then parts[0] else parts[0] + [Slash] + Join(parts[1..])
  }

  /** Number of separators in `s`. */
  function Separators(s: string): nat
  {
    if s == [] then 0 else (if s[0] == Slash then 1 else 0) + Separators(s[1..])
  }

  function HasPrefix(s: string, prefix: string): bool
  {
    |prefix| <= |s| && s[..|prefix|] == prefix
  }

  function HasSuffix(s: string, suffix: string): bool
  {
    |suffix| <= |s| && s[|s| - |suffix|..] == suffix
  }

  function TrimPrefix(s: string, prefix: string): string
  {
    if HasPrefix(s, prefix) then s[|prefix|..] else s
  }

  function TrimSuffix(s: string, suffix: string): string
  {
    if HasSuffix(s, suffix) then s[..|s| - |suffix|] else s
  }

  /** Split yields one piece more than there are separators. */
  lemma {:induction false} SplitLength(s: string)
    ensures |Split(s)| == Separators(s) + 1
  {
    if s != [] {
      SplitLength(s[1..]);
    }
  }

  /** Joining the pieces of a split gives back the string. */
  lemma {:induction false} JoinSplit(s: string)
    ensures Join(Split(s)) == s
  {
    if s == [] {
    } else if s[0] == Slash {
      JoinSplit(s[1..]);
      assert Split(s) == [""] + Split(s[1..]);
      assert s == [s[0]] + s[1..];
    } else {
      var t := Split(s[1..]);
      JoinSplit(s[1..]);
      assert Split(s) == [[s[0]] + t[0]] + t[1..];
      if |t| == 1 {
        assert s == [s[0]] + t[0];
      } else {
        assert Join(t) == t[0] + [Slash] + Join(t[1..]);
        assert (t[0] + [Slash] + Join(t[1..])) == s[1..];
        assert [s[0]] + t[0] + [Slash] + Join(t[1..]) == s;
      }
    }
  }

  /** A prefix without separators is glued onto the first piece. */
  lemma {:induction false} SplitGlue(a: string, rest: string)
    requires Slash !in a
    ensures Split(a + rest) == [a + Split(rest)[0]] + Split(rest)[1..]
  {
    if a != [] {
      SplitGlue(a[1..], rest);
      assert (a + rest)[0] == a[0];
      assert (a + rest)[1..] == a[1..] + rest;
      assert [a[0]] + (a[1..] + Split(rest)[0]) == a + Split(rest)[0];
    } else {
      var t := Split(rest);
      assert a + rest == rest;
      assert a + t[0] == t[0];
      assert t == [t[0]] + t[1..];
    }
  }

  /** A piece without separators followed by "/" splits off as one piece. */
  lemma SplitPiece(a: string, rest: string)
    requires Slash !in a
    ensures Split(a + [Slash] + rest) == [a] + Split(rest)
  {
    assert a + [Slash] + rest == a + ([Slash] + rest);
    SplitGlue(a, [Slash] + rest);
    assert ([Slash] + rest)[0] == Slash;
    assert ([Slash] + rest)[1..] == rest;
    assert Split([Slash] + rest) == [""] + Split(rest);
    assert a + "" == a;
  }

  /** Splitting the join of separator-free pieces gives back the pieces. */
  lemma {:induction false} SplitJoin(parts: seq<string>)
    requires |parts| >= 1
    requires forall i :: 0 <= i < |parts| ==> Slash !in parts[i]
    ensures Split(Join(parts)) == parts
  {
    if |parts| == 1 {
      SplitGlue(parts[0], "");
      assert parts[0] + "" == parts[0];
    } else {
      SplitJoin(parts[1..]);
      SplitPiece(parts[0], Join(parts[1..]));
      assert parts == [parts[0]] + parts[1..];
    }
  }

  /** Splitting at a separator splits each side apart. */
  lemma {:induction false} SplitConcat(a: string, b: string)
    ensures Split(a + [Slash] + b) == Split(a) + Split(b)
  {
    var s := a + [Slash] + b;
    if a == [] {
      assert s == [Slash] + b;
      assert s[0] == Slash && s[1..] == b;
      assert Split(s) == [""] + Split(b);
    } else {
      assert s[0] == a[0];
      assert s[1..] == a[1..] + [Slash] + b;
      SplitConcat(a[1..], b);
      var t := Split(a[1..]);
      if a[0] == Slash {
        assert Split(s) == [""] + (t + Split(b));
        assert Split(a) == [""] + t;
      } else {
        assert Split(s) == [[a[0]] + (t + Split(b))[0]] + (t + Split(b))[1..];
        assert Split(a) == [[a[0]] + t[0]] + t[1..];
        GlueFirst(a[0], t, Split(b));
      }
    }
  }

  /** Gluing a character onto the first piece commutes with appending
      further pieces. */
  lemma GlueFirst(c: char, t: seq<string>, v: seq<string>)
    requires |t| >= 1
    ensures [[c] + (t + v)[0]] + (t + v)[1..] == ([[c] + t[0]] + t[1..]) + v
  {
    assert (t + v)[0] == t[0];
    assert (t + v)[1..] == t[1..] + v;
  }

  /** A separator-free piece between two separators splits off as one
      piece between the pieces of either side. */
  lemma SplitAround(a: string, piece: string, b: string)
    requires Slash !in piece
    ensures Split(a + [Slash] + piece + [Slash] + b) == Split(a) + [piece] + Split(b)
  {
    assert a + [Slash] + piece + [Slash] + b == a + [Slash] + (piece + [Slash] + b);
    SplitConcat(a, piece + [Slash] + b);
    SplitPiece(piece, b);
  }
}
