/** The string operations the handlers rely on: `String.prototype.split`
    with a one-character separator, `String.prototype.trim`, and the
    code-point order the document store sorts strings by. */
module Text {

  /** `s.split(sep)` for a one-character separator: the maximal runs between
      separators, including empty ones at either end. */
  function Split(s: string, sep: char): (pieces: seq<string>)
    ensures |pieces| >= 1
    ensures forall i :: 0 <= i < |pieces| ==> sep !in pieces[i]
  {
    if s == [] then [[]]
    else
      var rest := Split(s[1..], sep);
      if s[0] == sep then [[]] + rest
      else [[s[0]] + rest[0]] + rest[1..]
  }

  /** `pieces.join(sep)`: the inverse of Split. */
  function Join(pieces: seq<string>, sep: char): string
    requires |pieces| >= 1
  {
    if |pieces| == 1 then pieces[0] else pieces[0] + [sep] + Join(pieces[1..], sep)
  }

  /** Splitting yields one piece more than there are separators. */
  lemma {:induction false} SplitCount(s: string, sep: char)
    ensures |Split(s, sep)| == multiset(s)[sep] + 1
  {
    if s != [] {
      SplitCount(s[1..], sep);
      assert s == [s[0]] + s[1..];
      assert multiset(s) == multiset{s[0]} + multiset(s[1..]);
    }
  }

  /** Joining the pieces back with the separator gives the original string. */
  lemma {:induction false} JoinSplit(s: string, sep: char)
    ensures Join(Split(s, sep), sep) == s
  {
    if s != [] {
      var rest := Split(s[1..], sep);
      JoinSplit(s[1..], sep);
      if s[0] == sep {
        assert Split(s, sep) == [[]] + rest;
        assert (Split(s, sep))[1..] == rest;
      } else {
        var pieces := Split(s, sep);
        assert pieces == [[s[0]] + rest[0]] + rest[1..];
        if |rest| == 1 {
          assert Join(pieces, sep) == [s[0]] + rest[0];
        } else {
          assert pieces[1..] == rest[1..];
          assert Join(rest, sep) == rest[0] + [sep] + Join(rest[1..], sep);
        }
      }
    }
  }

  /** Pieces that contain no separator come back unchanged from a join and
      a split. */
  lemma {:induction false} SplitJoin(pieces: seq<string>, sep: char)
    requires |pieces| >= 1
    requires forall i :: 0 <= i < |pieces| ==> sep !in pieces[i]
    ensures Split(Join(pieces, sep), sep) == pieces
  {
    if |pieces| == 1 {
      SplitNoSep(pieces[0], sep);
    } else {
      SplitJoin(pieces[1..], sep);
      SplitPrefix(pieces[0], Join(pieces[1..], sep), sep);
      assert Join(pieces, sep) == pieces[0] + ([sep] + Join(pieces[1..], sep));
      assert [pieces[0]] + pieces[1..] == pieces;
    }
  }

  /** A string without the separator splits into itself. */
  lemma {:induction false} SplitNoSep(w: string, sep: char)
    requires sep !in w
    ensures Split(w, sep) == [w]
  {
    if w != [] {
      SplitNoSep(w[1..], sep);
      assert [w[0]] + w[1..] == w;
    }
  }

  /** A separator-free word followed by a separator starts a new piece. */
  lemma {:induction false} SplitPrefix(w: string, tail: string, sep: char)
    requires sep !in w
    ensures Split(w + ([sep] + tail), sep) == [w] + Split(tail, sep)
  {
    if w == [] {
      assert w + ([sep] + tail) == [sep] + tail;
      assert ([sep] + tail)[1..] == tail;
    } else {
      SplitPrefix(w[1..], tail, sep);
      var s := w + ([sep] + tail);
      assert s[0] == w[0];
      assert s[1..] == w[1..] + ([sep] + tail);
      assert [w[0]] + w[1..] == w;
    }
  }

  /** The white space and line terminators `String.prototype.trim` removes. */
  predicate IsSpace(c: char) {
    var n := c as int;
    n == 0x09 || n == 0x0A || n == 0x0B || n == 0x0C || n == 0x0D || n == 0x20
    || n == 0xA0 || n == 0x1680 || (0x2000 <= n <= 0x200A) || n == 0x2028
    || n == 0x2029 || n == 0x202F || n == 0x205F || n == 0x3000 || n == 0xFEFF
  }

  /** Drops the leading white space of `s`. */
  function TrimStart(s: string): (r: string)
    ensures |r| <= |s| && r == s[|s| - |r|..]
    ensures r == [] || !IsSpace(r[0])
    ensures forall i :: 0 <= i < |s| - |r| ==> IsSpace(s[i])
  {
    if s != [] && IsSpace(s[0]) then TrimStart(s[1..]) else s
  }

  /** Drops the trailing white space of `s`. */
  function TrimEnd(s: string): (r: string)
    ensures |r| <= |s| && r == s[..|r|]
    ensures r == [] || !IsSpace(r[|r| - 1])
    ensures forall i :: |r| <= i < |s| ==> IsSpace(s[i])
  {
    if s != [] && IsSpace(s[|s| - 1]) then TrimEnd(s[..|s| - 1]) else s
  }

  /** `s.trim()`: the slice of `s` between its leading and its trailing white
      space. */
  function Trim(s: string): (r: string)
    ensures |r| <= |s|
    ensures r == [] || (!IsSpace(r[0]) && !IsSpace(r[|r| - 1]))
    ensures exists a, b :: 0 <= a <= b <= |s| && r == s[a..b]
                           && forall k :: (0 <= k < a || b <= k < |s|) ==> IsSpace(s[k])
  {
    TrimSlice(s);
    TrimEnd(TrimStart(s))
  }

  /** The trim of `s` is the slice between its leading white space and its
      trailing white space. */
  lemma {:induction false} TrimSlice(s: string)
    ensures exists a, b :: 0 <= a <= b <= |s| && TrimEnd(TrimStart(s)) == s[a..b]
                           && forall k :: (0 <= k < a || b <= k < |s|) ==> IsSpace(s[k])
  {
    var t := TrimStart(s);
    SpaceBetween(s, t, TrimEnd(t));
  }

  /** A suffix `t` of `s` after white space only, and a prefix `r` of `t`
      before white space only, are together a slice of `s` with white space
      only around it. */
  lemma {:induction false} SpaceBetween(s: string, t: string, r: string)
    requires |t| <= |s| && t == s[|s| - |t|..]
    requires forall i :: 0 <= i < |s| - |t| ==> IsSpace(s[i])
    requires |r| <= |t| && r == t[..|r|]
    requires forall i :: |r| <= i < |t| ==> IsSpace(t[i])
    ensures exists a, b :: 0 <= a <= b <= |s| && r == s[a..b]
                           && forall k :: (0 <= k < a || b <= k < |s|) ==> IsSpace(s[k])
  {
    var a := |s| - |t|;
    var b := a + |r|;
    assert r == s[a..b];
    forall k | b <= k < |s| ensures IsSpace(s[k]) {
      assert s[k] == t[k - a];
    }
  }

  /** A string that neither starts nor ends with white space is its own trim;
      in particular trimming twice is trimming once. */
  lemma TrimFixpoint(s: string)
    requires s == [] || (!IsSpace(s[0]) && !IsSpace(s[|s| - 1]))
    ensures Trim(s) == s
  {
  }

  lemma TrimIdempotent(s: string)
    ensures Trim(Trim(s)) == Trim(s)
  {
    TrimFixpoint(Trim(s));
  }

  /** The order of strings by code point, a proper prefix first: the order the
      document store sorts string fields by. */
  predicate LexLe(a: string, b: string) {
    a == [] || (b != [] && (a[0] < b[0] || (a[0] == b[0] && LexLe(a[1..], b[1..]))))
  }

  lemma {:induction false} LexTotal(a: string, b: string)
    ensures LexLe(a, b) || LexLe(b, a)
  {
    if a != [] && b != [] && a[0] == b[0] {
      LexTotal(a[1..], b[1..]);
    }
  }

  lemma {:induction false} LexTransitive(a: string, b: string, c: string)
    requires LexLe(a, b) && LexLe(b, c)
    ensures LexLe(a, c)
  {
    if a != [] && b != [] && c != [] && a[0] == b[0] == c[0] {
      LexTransitive(a[1..], b[1..], c[1..]);
    }
  }

  lemma {:induction false} LexAntisymmetric(a: string, b: string)
    requires LexLe(a, b) && LexLe(b, a)
    ensures a == b
  {
    if a != [] && b != [] {
      LexAntisymmetric(a[1..], b[1..]);
      assert a == [a[0]] + a[1..] && b == [b[0]] + b[1..];
    }
  }
}
