/**
 * Reading the bearer token out of an `Authorization` header. The middleware
 * splits the header on EVERY space, not only the first, and keeps the
 * first two pieces, so `"Bearer  T"` yields an empty token.
 */
module Header {
  import opened Wrappers

  /** JavaScript's split on a single space: the maximal space-free pieces between spaces, empty pieces included. */
  function Split(s: string): (pieces: seq<string>)
    ensures |pieces| >= 1
  {
    if s == [] then [[]]
    else
      var rest := Split(s[1..]);
      if s[0] == ' ' then [[]] + rest
      else [[s[0]] + rest[0]] + rest[1..]
  }

  /** `pieces.join(" ")`. */
  function Join(pieces: seq<string>): string {
    if |pieces| == 0 then []
    else if |pieces| == 1 then pieces[0]
    else pieces[0] + [' '] + Join(pieces[1..])
  }

  predicate SpaceFree(w: string) {
    ' ' !in w
  }

  /** Joining the pieces with single spaces gives the header back. */
  lemma {:induction false} JoinSplit(s: string)
    ensures Join(Split(s)) == s
  {
    if s != [] {
      JoinSplit(s[1..]);
      var rest := Split(s[1..]);
      if s[0] != ' ' && |rest| > 1 {
        assert rest == [rest[0]] + rest[1..];
        assert Join(rest) == rest[0] + [' '] + Join(rest[1..]);
        assert s == [s[0]] + s[1..];
      }
    }
  }

  /** No piece contains a space. */
  lemma {:induction false} SplitSpaceFree(s: string)
    ensures forall k | 0 <= k < |Split(s)| :: SpaceFree(Split(s)[k])
  {
    if s != [] {
      SplitSpaceFree(s[1..]);
    }
  }

  /** A space-free word is a single piece. */
  lemma {:induction false} SplitWord(w: string)
    requires SpaceFree(w)
    ensures Split(w) == [w]
  {
    if w != [] {
      SplitWord(w[1..]);
      assert w == [w[0]] + w[1..];
    }
  }

  /** Splitting at a space splits the two sides independently. */
  lemma {:induction false} SplitAtSpace(x: string, y: string)
    ensures Split(x + [' '] + y) == Split(x) + Split(y)
  {
    var z := x + [' '] + y;
    if x == [] {
      assert z == [' '] + y;
      assert z[1..] == y;
    } else {
      assert z[1..] == x[1..] + [' '] + y;
      SplitAtSpace(x[1..], y);
      if x[0] != ' ' {
        SplitConsWord(x[0], Split(x[1..]), Split(y));
      }
    }
  }

  /** The pieces of a non-space character followed by more text, when that text splits into two runs of pieces. */
  lemma SplitConsWord(c: char, left: seq<string>, right: seq<string>)
    requires |left| >= 1
    ensures [[c] + (left + right)[0]] + (left + right)[1..] == ([[c] + left[0]] + left[1..]) + right
  {
    assert (left + right)[0] == left[0];
    assert (left + right)[1..] == left[1..] + right;
  }

  /** Splitting space-free pieces joined by single spaces gives the pieces back. */
  lemma {:induction false} SplitJoin(pieces: seq<string>)
    requires |pieces| >= 1
    requires forall k | 0 <= k < |pieces| :: SpaceFree(pieces[k])
    ensures Split(Join(pieces)) == pieces
  {
    if |pieces| == 1 {
      SplitWord(pieces[0]);
    } else {
      SplitJoin(pieces[1..]);
      SplitWord(pieces[0]);
      SplitAtSpace(pieces[0], Join(pieces[1..]));
      assert [pieces[0]] + pieces[1..] == pieces;
    }
  }

  /** The only scheme the middleware accepts (compared case-sensitively). */
  const Scheme: string := "Bearer"

  /**
   * The token the middleware reads: the second of the pieces the header
   * splits into on every space, or None unless the first piece is exactly
   * `Bearer` and a second piece exists and is non-empty.
   */
  function ParseBearer(authorization: string): Option<string> {
    var pieces := Split(authorization);
    if pieces[0] != Scheme || |pieces| < 2 || pieces[1] == [] then None
    else Some(pieces[1])
  }

  /**
   * The header presents token t: it is `Bearer`, one space, then t (non-empty
   * and space-free), then either the end of the header or another space.
   */
  predicate Presents(authorization: string, t: string) {
    var n := |Scheme| + 1 + |t|;
    && t != [] && SpaceFree(t)
    && |authorization| >= n
    && authorization[..|Scheme|] == Scheme && authorization[|Scheme|] == ' '
    && authorization[|Scheme| + 1 .. n] == t
    && (|authorization| == n || authorization[n] == ' ')
  }

  /** A token ParseBearer finds is presented by the header. */
  lemma ParseBearerFound(authorization: string, t: string)
    requires ParseBearer(authorization) == Some(t)
    ensures Presents(authorization, t)
  {
    var n := |Scheme| + 1 + |t|;
    var pieces := Split(authorization);
    JoinSplit(authorization);
    SplitSpaceFree(authorization);
    assert SpaceFree(pieces[1]);
    var tail := Join(pieces[1..]);
    assert authorization == Scheme + [' '] + tail;
    if |pieces| == 2 {
      assert tail == t;
      assert authorization[|Scheme| + 1 .. n] == tail;
    } else {
      assert pieces[1..] == [pieces[1]] + pieces[2..];
      assert tail == t + [' '] + Join(pieces[2..]);
      assert authorization[|Scheme| + 1 .. n] == t;
      assert authorization[n] == ' ';
    }
  }

  /** A token the header presents is the one ParseBearer finds. */
  lemma PresentedFound(authorization: string, t: string)
    requires Presents(authorization, t)
    ensures ParseBearer(authorization) == Some(t)
  {
    var n := |Scheme| + 1 + |t|;
    var scheme := authorization[..|Scheme|];
    var rest := authorization[|Scheme| + 1..];
    assert authorization == scheme + [' '] + rest;
    SplitAtSpace(scheme, rest);
    SplitWord(scheme);
    SplitWord(t);
    if |authorization| == n {
      assert rest == t;
    } else {
      assert rest == t + [' '] + authorization[n + 1..];
      SplitAtSpace(t, authorization[n + 1..]);
    }
  }

  /** ParseBearer finds t exactly when the header presents t. */
  lemma ParseBearerPresents(authorization: string, t: string)
    ensures ParseBearer(authorization) == Some(t) <==> Presents(authorization, t)
  {
    if ParseBearer(authorization) == Some(t) {
      ParseBearerFound(authorization, t);
    }
    if Presents(authorization, t) {
      PresentedFound(authorization, t);
    }
  }

  /** A header that does not start with `Bearer` and a space presents no token. */
  lemma SchemeMismatchRefused(authorization: string)
    requires |authorization| < |Scheme| + 1 || authorization[..|Scheme|] != Scheme || authorization[|Scheme|] != ' '
    ensures ParseBearer(authorization) == None
  {
    match ParseBearer(authorization)
    case None =>
    case Some(t) =>
      ParseBearerPresents(authorization, t);
      assert false;
  }

  /** Two spaces after the scheme leave an empty second piece: refused, whatever follows. */
  lemma DoubleSpaceRefused(rest: string)
    ensures ParseBearer(Scheme + [' ', ' '] + rest) == None
  {
    var tail := [' '] + rest;
    assert Scheme + [' ', ' '] + rest == Scheme + [' '] + tail;
    SplitAtSpace(Scheme, tail);
    SplitWord(Scheme);
    assert tail[1..] == rest;
    assert Split(tail) == [[]] + Split(rest);
  }

  /** Pieces after the second are ignored: only the token right after the scheme counts. */
  lemma ExtraPiecesIgnored(t: string, rest: string)
    requires t != [] && SpaceFree(t)
    ensures ParseBearer(Scheme + [' '] + t + [' '] + rest) == Some(t)
  {
    var h := Scheme + [' '] + t + [' '] + rest;
    var n := |Scheme| + 1 + |t|;
    assert h[..|Scheme|] == Scheme;
    assert h[|Scheme| + 1 .. n] == t;
    assert h[n] == ' ';
    ParseBearerPresents(h, t);
  }
}
