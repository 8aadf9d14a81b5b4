/** Line tokenizer of the OBJ loader (`words`, src/obj_loader.rs): split a
    string wherever a separator character occurs, then drop empty pieces. */
module Tokenizer {

  /** Rust's `char::is_whitespace`: the Unicode White_Space property. */
  predicate IsWhitespace(c: char): (r: bool)
    ensures c as int < 0x80 ==> (r <==> c in {' ', '\t', '\n', '\U{0B}', '\U{0C}', '\r'})
    ensures r ==> !IsSlash(c)
  {
    var n := c as int;
    (0x09 <= n <= 0x0D) || n == 0x20 || n == 0x85 || n == 0xA0 || n == 0x1680
    || (0x2000 <= n <= 0x200A) || n == 0x2028 || n == 0x2029 || n == 0x202F
    || n == 0x205F || n == 0x3000
  }

  /** The `"/"` pattern that separates the sub-fields of a face group. */
  predicate IsSlash(c: char)
  {
    c == '/'
  }

  /** The two separator patterns the loader splits on. */
  datatype Separator = Whitespace | Slash

  predicate IsSeparator(sep: Separator, c: char)
  {
    match sep
    case Whitespace => IsWhitespace(c)
    case Slash => IsSlash(c)
  }

  /** No character of `p` is a separator. */
  predicate Free(p: string, sep: Separator)
  {
    forall i :: 0 <= i < |p| ==> !IsSeparator(sep, p[i])
  }

  /** `str::split` with a character pattern: every separator ends one piece
      and starts the next, so `n` separators give `n + 1` pieces, some of
      which may be empty. */
  function Split(s: string, sep: Separator): (r: seq<string>)
    ensures |r| >= 1
  {
    if s == [] then [[]]
    else
      var rest := Split(s[1..], sep);
      if IsSeparator(sep, s[0]) then [[]] + rest else [[s[0]] + rest[0]] + rest[1..]
  }

  /** The filter `is_not_empty`. */
  function NonEmpty(ps: seq<string>): (r: seq<string>)
    ensures |r| <= |ps|
    ensures forall k :: 0 <= k < |r| ==> r[k] != []
  {
    if ps == [] then []
    else (if ps[0] == [] then [] else [ps[0]]) + NonEmpty(ps[1..])
  }

  /** `words`: the whitespace-separated tokens of a line. */
  function Words(s: string): (r: seq<string>)
    ensures forall k :: 0 <= k < |r| ==> r[k] != []
  {
    NonEmpty(Split(s, Whitespace))
  }

  /** The pieces of `ps` written one after another. */
  function Concat(ps: seq<string>): string
  {
    if ps == [] then [] else ps[0] + Concat(ps[1..])
  }

  /** `s` with every separator character removed. */
  function Strip(s: string, sep: Separator): string
  {
    if s == [] then [] else (if IsSeparator(sep, s[0]) then [] else [s[0]]) + Strip(s[1..], sep)
  }

  /** The pieces of `ps` with one `glue` between each two of them. */
  function Join(ps: seq<string>, glue: char): string
    requires |ps| >= 1
  {
    if |ps| == 1 then ps[0] else ps[0] + [glue] + Join(ps[1..], glue)
  }

  // ---------------------------------------------------------------------
  // Split

  lemma {:induction false} SplitPiecesFree(s: string, sep: Separator)
    ensures forall k :: 0 <= k < |Split(s, sep)| ==> Free(Split(s, sep)[k], sep)
  {
    if s != [] {
      SplitPiecesFree(s[1..], sep);
    }
  }

  lemma {:induction false} SplitConcat(s: string, sep: Separator)
    ensures Concat(Split(s, sep)) == Strip(s, sep)
  {
    if s != [] {
      var rest := Split(s[1..], sep);
      SplitConcat(s[1..], sep);
      if IsSeparator(sep, s[0]) {
        assert ([[]] + rest)[1..] == rest;
      } else {
        var r := [[s[0]] + rest[0]] + rest[1..];
        assert r[1..] == rest[1..];
        assert Concat(rest) == rest[0] + Concat(rest[1..]);
        assert Concat(r) == [s[0]] + rest[0] + Concat(rest[1..]);
      }
    }
  }

  /** Splitting a separator-free prefix only extends the first piece. */
  lemma {:induction false} SplitFreePrefix(p: string, t: string, sep: Separator)
    requires Free(p, sep)
    ensures Split(p + t, sep) == [p + Split(t, sep)[0]] + Split(t, sep)[1..]
  {
    var r := Split(t, sep);
    if p == [] {
      assert p + t == t;
      assert p + r[0] == r[0];
      assert [r[0]] + r[1..] == r;
    } else {
      assert (p + t)[1..] == p[1..] + t;
      SplitFreePrefix(p[1..], t, sep);
      assert [p[0]] + (p[1..] + Split(t, sep)[0]) == p + Split(t, sep)[0];
    }
  }

  /** Splitting undoes joining with a separator. */
  lemma {:induction false} SplitJoin(ps: seq<string>, glue: char, sep: Separator)
    requires |ps| >= 1 && IsSeparator(sep, glue)
    requires forall k :: 0 <= k < |ps| ==> Free(ps[k], sep)
    ensures Split(Join(ps, glue), sep) == ps
  {
    if |ps| == 1 {
      SplitFreePrefix(ps[0], [], sep);
      assert ps[0] + [] == ps[0];
    } else {
      var j := Join(ps[1..], glue);
      SplitJoin(ps[1..], glue, sep);
      assert ps[0] + [glue] + j == ps[0] + ([glue] + j);
      SplitFreePrefix(ps[0], [glue] + j, sep);
      assert ([glue] + j)[1..] == j;
      var r := Split([glue] + j, sep);
      assert r == [[]] + ps[1..];
      assert r[0] == [] && r[1..] == ps[1..];
      assert ps[0] + [] == ps[0];
      assert [ps[0]] + ps[1..] == ps;
    }
  }

  /** Joining the pieces of a split on `/` with `/` gives back the string. */
  lemma {:induction false} JoinSplitSlash(s: string)
    ensures Join(Split(s, Slash), '/') == s
  {
    if s != [] {
      var rest := Split(s[1..], Slash);
      JoinSplitSlash(s[1..]);
      if IsSlash(s[0]) {
        var r := [[]] + rest;
        assert r[1..] == rest;
        assert Join(r, '/') == [] + ['/'] + Join(rest, '/');
      } else {
        var r := [[s[0]] + rest[0]] + rest[1..];
        if |rest| == 1 {
          assert r == [[s[0]] + rest[0]];
        } else {
          assert r[1..] == rest[1..];
          assert Join(rest, '/') == rest[0] + ['/'] + Join(rest[1..], '/');
        }
      }
    }
  }

  // ---------------------------------------------------------------------
  // Words

  lemma {:induction false} NonEmptyKeeps(ps: seq<string>, sep: Separator)
    requires forall k :: 0 <= k < |ps| ==> Free(ps[k], sep)
    ensures forall k :: 0 <= k < |NonEmpty(ps)| ==> NonEmpty(ps)[k] != [] && Free(NonEmpty(ps)[k], sep)
    ensures Concat(NonEmpty(ps)) == Concat(ps)
  {
    if ps != [] {
      NonEmptyKeeps(ps[1..], sep);
      var tail := NonEmpty(ps[1..]);
      if ps[0] != [] {
        assert ([ps[0]] + tail)[1..] == tail;
        assert Concat([ps[0]] + tail) == ps[0] + Concat(tail);
      } else {
        assert NonEmpty(ps) == tail;
        assert Concat(ps) == [] + Concat(ps[1..]);
      }
    }
  }

  lemma {:induction false} NonEmptyIdentity(ps: seq<string>)
    requires forall k :: 0 <= k < |ps| ==> ps[k] != []
    ensures NonEmpty(ps) == ps
  {
    if ps != [] {
      NonEmptyIdentity(ps[1..]);
    }
  }

  /** Every token is non-empty and holds no whitespace, and the tokens
      written one after another are the line with its whitespace removed. */
  lemma WordsAreTokens(s: string)
    ensures forall k :: 0 <= k < |Words(s)| ==> Words(s)[k] != [] && Free(Words(s)[k], Whitespace)
    ensures Concat(Words(s)) == Strip(s, Whitespace)
  {
    SplitPiecesFree(s, Whitespace);
    NonEmptyKeeps(Split(s, Whitespace), Whitespace);
    SplitConcat(s, Whitespace);
  }

  lemma {:induction false} StripEmpty(s: string, sep: Separator)
    ensures Strip(s, sep) == [] <==> forall i :: 0 <= i < |s| ==> IsSeparator(sep, s[i])
  {
    if s != [] {
      StripEmpty(s[1..], sep);
      assert forall i :: 1 <= i < |s| ==> s[1..][i - 1] == s[i];
    }
  }

  /** A line yields no token exactly when it is empty or all whitespace. */
  lemma NoWords(s: string)
    ensures Words(s) == [] <==> forall i :: 0 <= i < |s| ==> IsWhitespace(s[i])
  {
    WordsAreTokens(s);
    StripEmpty(s, Whitespace);
    var ws := Words(s);
    if ws != [] {
      assert Concat(ws) == ws[0] + Concat(ws[1..]);
      assert |Concat(ws)| > 0;
    }
  }

  /** Tokenizing tokens joined by single spaces gives the tokens back. */
  lemma WordsJoin(ws: seq<string>)
    requires |ws| >= 1
    requires forall k :: 0 <= k < |ws| ==> ws[k] != [] && Free(ws[k], Whitespace)
    ensures Words(Join(ws, ' ')) == ws
  {
    SplitJoin(ws, ' ', Whitespace);
    NonEmptyIdentity(ws);
  }

  /** A leading separator yields an empty first piece. */
  lemma SplitConsSeparator(h: char, u: string, sep: Separator)
    requires IsSeparator(sep, h)
    ensures Split([h] + u, sep) == [[]] + Split(u, sep)
  {
    assert ([h] + u)[1..] == u;
  }

  /** A leading non-separator joins the first piece. */
  lemma SplitConsOther(h: char, u: string, sep: Separator)
    requires !IsSeparator(sep, h)
    ensures Split([h] + u, sep) == [[h] + Split(u, sep)[0]] + Split(u, sep)[1..]
  {
    assert ([h] + u)[1..] == u;
  }

  /** Extending the first piece commutes with appending further pieces. */
  lemma ExtendFirst(h: string, ra: seq<string>, rt: seq<string>)
    requires |ra| >= 1
    ensures [h + (ra + rt)[0]] + (ra + rt)[1..] == [h + ra[0]] + ra[1..] + rt
  {
    assert (ra + rt)[0] == ra[0];
    assert (ra + rt)[1..] == ra[1..] + rt;
  }

  /** One more leading character keeps a split that falls between `u` and `v`. */
  lemma SplitConsAppend(h: char, u: string, v: string, sep: Separator, rv: seq<string>)
    requires Split(u + v, sep) == Split(u, sep) + rv
    ensures Split([h] + u + v, sep) == Split([h] + u, sep) + rv
  {
    var ru := Split(u, sep);
    assert [h] + u + v == [h] + (u + v);
    if IsSeparator(sep, h) {
      SplitConsSeparator(h, u + v, sep);
      SplitConsSeparator(h, u, sep);
    } else {
      SplitConsOther(h, u + v, sep);
      SplitConsOther(h, u, sep);
      ExtendFirst([h], ru, rv);
    }
  }

  /** A separator between two strings splits exactly between their pieces. */
  lemma {:induction false} SplitBeforeSeparator(a: string, t: string, sep: Separator)
    requires t != [] && IsSeparator(sep, t[0])
    ensures Split(a + t, sep) == Split(a, sep) + Split(t[1..], sep)
  {
    if a == [] {
      assert a + t == t;
    } else {
      SplitBeforeSeparator(a[1..], t, sep);
      SplitConsAppend(a[0], a[1..], t, sep, Split(t[1..], sep));
      assert [a[0]] + a[1..] == a;
    }
  }

  lemma SplitAtSeparator(a: string, c: char, b: string, sep: Separator)
    requires IsSeparator(sep, c)
    ensures Split(a + [c] + b, sep) == Split(a, sep) + Split(b, sep)
  {
    assert a + [c] + b == a + ([c] + b);
    assert ([c] + b)[1..] == b;
    SplitBeforeSeparator(a, [c] + b, sep);
  }

  lemma {:induction false} NonEmptyAppend(ps: seq<string>, qs: seq<string>)
    ensures NonEmpty(ps + qs) == NonEmpty(ps) + NonEmpty(qs)
  {
    if ps == [] {
      assert ps + qs == qs;
    } else {
      assert (ps + qs)[0] == ps[0];
      assert (ps + qs)[1..] == ps[1..] + qs;
      NonEmptyAppend(ps[1..], qs);
    }
  }

  /** A whitespace character separates the tokens on its two sides: the
      tokens of a line are those of the text before it followed by those of
      the text after it. With `WordsOfToken` this fixes the tokens of every
      line as its maximal whitespace-free runs, whatever whitespace
      separates them. */
  lemma WordsAtWhitespace(a: string, c: char, b: string)
    requires IsWhitespace(c)
    ensures Words(a + [c] + b) == Words(a) + Words(b)
  {
    SplitAtSeparator(a, c, b, Whitespace);
    NonEmptyAppend(Split(a, Whitespace), Split(b, Whitespace));
  }

  /** A non-empty run without whitespace is one token. */
  lemma WordsOfToken(s: string)
    requires s != [] && Free(s, Whitespace)
    ensures Words(s) == [s]
  {
    SplitFreePrefix(s, [], Whitespace);
    assert s + [] == s;
    assert Split(s, Whitespace) == [s];
    assert NonEmpty([s]) == [s] + NonEmpty([]);
  }
}
