/** The string handling of the line parser: splitting a line on `[`, space and
    `]` and dropping empty pieces, and the substring search that locates the
    message. Characters stand for bytes: lines are assumed to be ASCII, so a
    byte index and a character index coincide. */
module Text {
  import opened Outcome

  predicate IsDelimiter(c: char) {
    c == '[' || c == ' ' || c == ']'
  }

  predicate DelimiterFree(s: string) {
    forall k :: 0 <= k < |s| ==> !IsDelimiter(s[k])
  }

  predicate AllDelimiters(ds: seq<char>) {
    forall k :: 0 <= k < |ds| ==> IsDelimiter(ds[k])
  }

  /** The pieces between delimiters, empty ones included, as `str::split` with
      a set of delimiter characters yields them. */
  function Split(s: string): (pieces: seq<string>)
    ensures |pieces| >= 1
    ensures forall k :: 0 <= k < |pieces| ==> DelimiterFree(pieces[k])
    decreases |s|
  {
    if s == [] then [[]]
    else if IsDelimiter(s[0]) then [[]] + Split(s[1..])
    else
      var rest := Split(s[1..]);
      [[s[0]] + rest[0]] + rest[1..]
  }

  /** The delimiter characters of `s`, in order. */
  function Delimiters(s: string): (ds: seq<char>)
    ensures AllDelimiters(ds)
  {
    if s == [] then []
    else if IsDelimiter(s[0]) then [s[0]] + Delimiters(s[1..])
    else Delimiters(s[1..])
  }

  /** Puts the separators back between the pieces. */
  function Interleave(pieces: seq<string>, seps: seq<char>): string
    requires |pieces| == |seps| + 1
  {
    if seps == [] then pieces[0]
    else pieces[0] + [seps[0]] + Interleave(pieces[1..], seps[1..])
  }

  /** Splitting loses nothing: the pieces and the delimiters give the line back. */
  lemma {:induction false} SplitRoundTrip(s: string)
    ensures |Split(s)| == |Delimiters(s)| + 1
    ensures Interleave(Split(s), Delimiters(s)) == s
    decreases |s|
  {
    if s != [] {
      SplitRoundTrip(s[1..]);
      var rest := Split(s[1..]);
      if !IsDelimiter(s[0]) {
        var ds := Delimiters(s[1..]);
        if ds == [] {
          assert Interleave(Split(s), Delimiters(s)) == [s[0]] + rest[0];
        } else {
          assert Split(s)[1..] == rest[1..];
          calc {
            Interleave(Split(s), Delimiters(s));
            ([s[0]] + rest[0]) + [ds[0]] + Interleave(rest[1..], ds[1..]);
            [s[0]] + (rest[0] + [ds[0]] + Interleave(rest[1..], ds[1..]));
            [s[0]] + s[1..];
          }
        }
      }
      assert [s[0]] + s[1..] == s;
    }
  }

  /** The other direction: any decomposition into delimiter-free pieces and
      delimiters is the one `Split` finds, so `Split` is determined by
      `SplitRoundTrip` and `Split`'s own contract. */
  lemma {:induction false} SplitUnique(pieces: seq<string>, seps: seq<char>)
    requires |pieces| == |seps| + 1
    requires forall k :: 0 <= k < |pieces| ==> DelimiterFree(pieces[k])
    requires AllDelimiters(seps)
    ensures Split(Interleave(pieces, seps)) == pieces
    decreases |seps|
  {
    if seps == [] {
      SplitOfWord(pieces[0]);
    } else {
      SplitUnique(pieces[1..], seps[1..]);
      SplitOfConcat(pieces[0], seps[0], Interleave(pieces[1..], seps[1..]));
      SplitOfWord(pieces[0]);
      assert pieces == [pieces[0]] + pieces[1..];
    }
  }

  /** A delimiter-free string is a single piece. */
  lemma {:induction false} SplitOfWord(t: string)
    requires DelimiterFree(t)
    ensures Split(t) == [t]
    decreases |t|
  {
    if t != [] {
      SplitOfWord(t[1..]);
      assert [t[0]] + t[1..] == t;
    }
  }

  /** A delimiter cuts the pieces of what is on its two sides apart. */
  lemma {:induction false} SplitOfConcat(a: string, d: char, b: string)
    requires IsDelimiter(d)
    ensures Split(a + [d] + b) == Split(a) + Split(b)
    decreases |a|
  {
    var s := a + [d] + b;
    if a == [] {
      assert s[0] == d && s[1..] == b;
    } else {
      assert s[0] == a[0] && s[1..] == a[1..] + [d] + b;
      SplitOfConcat(a[1..], d, b);
    }
  }

  /** Keeps the non-empty strings, in order. */
  function NonEmpty(pieces: seq<string>): (r: seq<string>)
    ensures forall k :: 0 <= k < |r| ==> |r[k]| > 0
  {
    if pieces == [] then []
    else if pieces[0] == [] then NonEmpty(pieces[1..])
    else [pieces[0]] + NonEmpty(pieces[1..])
  }

  lemma {:induction false} NonEmptyConcat(x: seq<string>, y: seq<string>)
    ensures NonEmpty(x + y) == NonEmpty(x) + NonEmpty(y)
    decreases |x|
  {
    if x != [] {
      var xy := x + y;
      assert xy[0] == x[0] && xy[1..] == x[1..] + y;
      NonEmptyConcat(x[1..], y);
      if x[0] != [] {
        calc {
          NonEmpty(xy);
          [x[0]] + NonEmpty(x[1..] + y);
          [x[0]] + (NonEmpty(x[1..]) + NonEmpty(y));
          ([x[0]] + NonEmpty(x[1..])) + NonEmpty(y);
        }
      }
    } else {
      assert x + y == y;
    }
  }

  lemma {:induction false} TokenIsPiece(pieces: seq<string>, k: nat)
    requires k < |NonEmpty(pieces)|
    ensures exists j :: 0 <= j < |pieces| && pieces[j] == NonEmpty(pieces)[k]
    decreases |pieces|
  {
    var rest := NonEmpty(pieces[1..]);
    if pieces[0] == [] {
      TokenIsPiece(pieces[1..], k);
      var j :| 0 <= j < |pieces[1..]| && pieces[1..][j] == rest[k];
      assert pieces[j + 1] == NonEmpty(pieces)[k];
    } else if k == 0 {
      assert pieces[0] == NonEmpty(pieces)[0];
    } else {
      TokenIsPiece(pieces[1..], k - 1);
      var j :| 0 <= j < |pieces[1..]| && pieces[1..][j] == rest[k - 1];
      assert pieces[j + 1] == NonEmpty(pieces)[k];
    }
  }

  /** The tokens of a line: its non-empty pieces between `[`, space and `]`. */
  function Tokens(line: string): (tokens: seq<string>)
    ensures forall k :: 0 <= k < |tokens| ==> |tokens[k]| > 0 && DelimiterFree(tokens[k])
  {
    NonEmptyKeepsDelimiterFree(Split(line));
    NonEmpty(Split(line))
  }

  lemma {:induction false} NonEmptyKeepsDelimiterFree(pieces: seq<string>)
    requires forall k :: 0 <= k < |pieces| ==> DelimiterFree(pieces[k])
    ensures forall k :: 0 <= k < |NonEmpty(pieces)| ==> DelimiterFree(NonEmpty(pieces)[k])
    decreases |pieces|
  {
    if pieces != [] {
      NonEmptyKeepsDelimiterFree(pieces[1..]);
    }
  }

  /** A delimiter separates the tokens on its two sides. */
  lemma TokensOfConcat(a: string, d: char, b: string)
    requires IsDelimiter(d)
    ensures Tokens(a + [d] + b) == Tokens(a) + Tokens(b)
  {
    SplitOfConcat(a, d, b);
    NonEmptyConcat(Split(a), Split(b));
  }

  /** A non-empty delimiter-free string is one token. */
  lemma TokensOfWord(t: string)
    requires |t| > 0 && DelimiterFree(t)
    ensures Tokens(t) == [t]
  {
    SplitOfWord(t);
    assert [t][1..] == [];
    assert NonEmpty([t]) == [t] + NonEmpty([]);
  }

  predicate OccursAt(s: string, t: string, i: nat) {
    i + |t| <= |s| && s[i..i + |t|] == t
  }

  /** `str::find`: the first index at or after `from` where `t` occurs. */
  function FindFrom(s: string, t: string, from: nat): (r: Option<nat>)
    requires from <= |s|
    ensures r.Some? ==> from <= r.value && OccursAt(s, t, r.value)
    ensures r.Some? ==> forall j :: from <= j < r.value ==> !OccursAt(s, t, j)
    ensures r.None? ==> forall j :: from <= j ==> !OccursAt(s, t, j)
    decreases |s| - from
  {
    if OccursAt(s, t, from) then Some(from)
    else if from == |s| then None
    else FindFrom(s, t, from + 1)
  }

  /** The index of the first occurrence of `t` in `s`, if any. */
  function Find(s: string, t: string): (r: Option<nat>)
    ensures r.Some? ==> OccursAt(s, t, r.value) && forall j :: 0 <= j < r.value ==> !OccursAt(s, t, j)
    ensures r.None? <==> forall j :: 0 <= j ==> !OccursAt(s, t, j)
  {
    FindFrom(s, t, 0)
  }

  /** Every piece of a line occurs in it. */
  lemma {:induction false} PieceOccurs(s: string, k: nat)
    requires k < |Split(s)|
    ensures exists i :: OccursAt(s, Split(s)[k], i)
    decreases |s|
  {
    if s != [] {
      var rest := Split(s[1..]);
      if IsDelimiter(s[0]) {
        if k == 0 {
          assert OccursAt(s, Split(s)[0], 0);
        } else {
          PieceOccurs(s[1..], k - 1);
          var i: nat :| OccursAt(s[1..], rest[k - 1], i);
          assert s[i + 1..i + 1 + |rest[k - 1]|] == s[1..][i..i + |rest[k - 1]|];
          assert OccursAt(s, Split(s)[k], i + 1);
        }
      } else if k == 0 {
        FirstPieceIsPrefix(s[1..]);
        assert s[..1 + |rest[0]|] == [s[0]] + s[1..][..|rest[0]|];
        assert OccursAt(s, Split(s)[0], 0);
      } else {
        PieceOccurs(s[1..], k);
        var i: nat :| OccursAt(s[1..], rest[k], i);
        assert s[i + 1..i + 1 + |rest[k]|] == s[1..][i..i + |rest[k]|];
        assert OccursAt(s, Split(s)[k], i + 1);
      }
    } else {
      assert OccursAt(s, Split(s)[k], 0);
    }
  }

  lemma {:induction false} FirstPieceIsPrefix(s: string)
    ensures |Split(s)[0]| <= |s| && s[..|Split(s)[0]|] == Split(s)[0]
    decreases |s|
  {
    if s != [] && !IsDelimiter(s[0]) {
      FirstPieceIsPrefix(s[1..]);
      var p := Split(s[1..])[0];
      assert s[..1 + |p|] == [s[0]] + s[1..][..|p|];
    }
  }

  /** Every token of a line occurs in it, so `find` on a token never fails. */
  lemma TokenOccurs(line: string, k: nat)
    requires k < |Tokens(line)|
    ensures Find(line, Tokens(line)[k]).Some?
  {
    var t := Tokens(line)[k];
    TokenIsPiece(Split(line), k);
    var j :| 0 <= j < |Split(line)| && Split(line)[j] == t;
    PieceOccurs(line, j);
  }
}
