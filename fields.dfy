/**
 * Field extraction for one line of the zip code table.
 *
 * The loader splits each line with `strtok(line, ",")` followed by
 * `strtok(nullptr, ",")` until it answers null, copying every token into the
 * next row of a fixed `fields[6][32]` buffer. strtok never yields an empty
 * token: runs of commas, and commas at either end of the line, are skipped.
 * This module defines the naive comma split (`Split`, with its inverse
 * `Join`), the tokens strtok yields (`Tokens`: the split with its empty pieces
 * dropped), one strtok step (`StrTok`) and the copying loop (`ExtractFields`).
 */
module Fields {
  import opened Wrappers

  /** The delimiter set the loader hands to strtok. */
  const Comma: char := ','

  /** Rows, and bytes per row, of the loader's `fields` buffer. */
  const FieldRows: nat := 6
  const FieldWidth: nat := 32

  /** Text holding no delimiter. */
  predicate CommaFree(s: string)
  {
    Comma !in s
  }

  /** What strtok can return: a non-empty run without delimiters. */
  predicate IsToken(t: string)
  {
    t != [] && CommaFree(t)
  }

  /** Index of the first comma of `s`, or `|s|` when there is none. */
  function CommaIndex(s: string): (r: nat)
    ensures r <= |s|
    ensures forall i | 0 <= i < r :: s[i] != Comma
    ensures r < |s| ==> s[r] == Comma
    decreases |s|
  {
    if s == [] || s[0] == Comma then 0 else 1 + CommaIndex(s[1..])
  }

  /** A comma-free prefix followed by a comma (or nothing) ends at that comma. */
  lemma {:induction false} CommaIndexAfterRun(a: string, rest: string)
    requires Comma !in a
    requires rest == [] || rest[0] == Comma
    ensures CommaIndex(a + rest) == |a|
  {
    var s := a + rest;
    assert forall i | 0 <= i < |a| :: s[i] == a[i] && s[i] != Comma;
    assert |a| < |s| ==> s[|a|] == Comma;
  }

  /** Text appended after the first comma does not move it. */
  lemma {:induction false} CommaIndexExtend(a: string, b: string)
    requires CommaIndex(a) < |a|
    ensures CommaIndex(a + b) == CommaIndex(a)
  {
    var s, q := a + b, CommaIndex(a);
    assert forall i | 0 <= i <= q :: s[i] == a[i];
  }

  /**
   * The naive split: every comma separates two pieces, so consecutive,
   * leading or trailing commas give empty pieces. This is NOT what strtok
   * yields; `Tokens` is.
   */
  function Split(s: string): (pieces: seq<string>)
    ensures |pieces| >= 1
    ensures forall p | p in pieces :: CommaFree(p)
    decreases |s|
  {
    var e := CommaIndex(s);
    if e == |s| then [s]
    else
      assert Comma !in s[..e] by {
        forall i | 0 <= i < e ensures s[..e][i] != Comma { }
      }
      [s[..e]] + Split(s[e + 1..])
  }

  /** Puts the pieces back together with one comma between neighbours. */
  function Join(pieces: seq<string>): (s: string)
    requires |pieces| >= 1
    decreases |pieces|
  {
    if |pieces| == 1 then pieces[0] else pieces[0] + [Comma] + Join(pieces[1..])
  }

  /**
   * Splitting and joining again gives back the line. With `SplitJoin` this
   * makes `Split` and `Join` inverse bijections between lines and non-empty
   * lists of comma-free pieces, the reference `Tokens` is built on.
   */
  lemma {:induction false} JoinSplit(s: string)
    ensures Join(Split(s)) == s
    decreases |s|
  {
    var e := CommaIndex(s);
    if e < |s| {
      var head, rest := s[..e], s[e + 1..];
      var tail := Split(rest);
      var pieces := [head] + tail;
      assert Split(s) == pieces;
      assert pieces[0] == head && pieces[1..] == tail;
      JoinSplit(rest);
      assert Join(pieces) == head + [Comma] + rest;
      assert s == head + [Comma] + rest;
    }
  }

  /** Joining comma-free pieces and splitting again gives back the pieces. */
  lemma {:induction false} SplitJoin(pieces: seq<string>)
    requires |pieces| >= 1
    requires forall p | p in pieces :: CommaFree(p)
    ensures Split(Join(pieces)) == pieces
    decreases |pieces|
  {
    if |pieces| == 1 {
      assert pieces[0] in pieces;
      CommaIndexAfterRun(pieces[0], []);
      assert pieces[0] + [] == pieces[0];
    } else {
      var head, tail := pieces[0], pieces[1..];
      var s := Join(pieces);
      assert head in pieces;
      assert forall p | p in tail :: p in pieces;
      CommaIndexAfterRun(head, [Comma] + Join(tail));
      assert s == head + ([Comma] + Join(tail));
      assert s[..|head|] == head;
      assert s[|head| + 1..] == Join(tail);
      SplitJoin(tail);
      assert Split(s) == [head] + tail;
      assert pieces == [head] + tail;
    }
  }

  /** A comma between two texts splits them apart and nothing more. */
  lemma {:induction false} SplitAround(a: string, b: string)
    ensures Split(a + [Comma] + b) == Split(a) + Split(b)
    decreases |a|
  {
    var s := a + [Comma] + b;
    var e := CommaIndex(a);
    if e == |a| {
      assert Comma !in a by {
        forall i | 0 <= i < |a| ensures a[i] != Comma { }
      }
      CommaIndexAfterRun(a, [Comma] + b);
      assert s == a + ([Comma] + b);
      assert s[..|a|] == a && s[|a| + 1..] == b;
    } else {
      CommaIndexExtend(a, [Comma] + b);
      assert s == a + ([Comma] + b);
      assert s[..e] == a[..e];
      assert s[e + 1..] == a[e + 1..] + [Comma] + b;
      SplitAround(a[e + 1..], b);
    }
  }

  /** Keeps the non-empty pieces, in order. */
  function DropEmpty(pieces: seq<string>): (r: seq<string>)
    ensures forall t | t in r :: t in pieces && t != []
    ensures |r| <= |pieces|
  {
    if pieces == [] then []
    else if pieces[0] == [] then DropEmpty(pieces[1..])
    else [pieces[0]] + DropEmpty(pieces[1..])
  }

  lemma {:induction false} DropEmptyAppend(xs: seq<string>, ys: seq<string>)
    ensures DropEmpty(xs + ys) == DropEmpty(xs) + DropEmpty(ys)
    decreases |xs|
  {
    if xs != [] {
      assert (xs + ys)[1..] == xs[1..] + ys;
      DropEmptyAppend(xs[1..], ys);
    } else {
      assert xs + ys == ys;
    }
  }

  lemma {:induction false} DropEmptyOfNonEmpty(xs: seq<string>)
    requires forall t | t in xs :: t != []
    ensures DropEmpty(xs) == xs
    decreases |xs|
  {
    if xs != [] {
      assert xs[0] in xs;
      assert forall t | t in xs[1..] :: t in xs;
      DropEmptyOfNonEmpty(xs[1..]);
      assert xs == [xs[0]] + xs[1..];
    }
  }

  /** The tokens strtok yields for a line: the naive split without its empty pieces. */
  function Tokens(line: string): (r: seq<string>)
    ensures forall t | t in r :: IsToken(t)
  {
    DropEmpty(Split(line))
  }

  /** No tokens in an empty line. */
  lemma TokensEmpty()
    ensures Tokens([]) == []
  {
    assert Split([]) == [[]];
  }

  /**
   * A comma separates tokens and adds none: this is what makes leading,
   * trailing and repeated commas vanish (`Tokens([]) == []`).
   */
  lemma {:induction false} TokensAround(a: string, b: string)
    ensures Tokens(a + [Comma] + b) == Tokens(a) + Tokens(b)
  {
    SplitAround(a, b);
    DropEmptyAppend(Split(a), Split(b));
  }

  /** A non-empty comma-free run is one token, whatever characters ('\n' too) it holds. */
  lemma {:induction false} TokensOfRun(t: string)
    requires t != [] && Comma !in t
    ensures Tokens(t) == [t]
  {
    SplitJoin([t]);
  }

  /** Tokenizing a join of non-empty comma-free fields gives back those fields. */
  lemma {:induction false} TokensJoin(fields: seq<string>)
    requires |fields| >= 1
    requires forall t | t in fields :: IsToken(t)
    ensures Tokens(Join(fields)) == fields
  {
    SplitJoin(fields);
    DropEmptyOfNonEmpty(fields);
  }

  /** The characters of `s` other than commas, in order. */
  function Uncomma(s: string): (r: string)
    ensures Comma !in r
    ensures |r| <= |s|
  {
    if s == [] then []
    else if s[0] == Comma then Uncomma(s[1..])
    else [s[0]] + Uncomma(s[1..])
  }

  function Concat(pieces: seq<string>): (s: string)
  {
    if pieces == [] then [] else pieces[0] + Concat(pieces[1..])
  }

  lemma {:induction false} UncommaAppend(a: string, b: string)
    ensures Uncomma(a + b) == Uncomma(a) + Uncomma(b)
    decreases |a|
  {
    if a != [] {
      assert (a + b)[1..] == a[1..] + b;
      UncommaAppend(a[1..], b);
    } else {
      assert a + b == b;
    }
  }

  lemma {:induction false} UncommaOfRun(a: string)
    requires Comma !in a
    ensures Uncomma(a) == a
    decreases |a|
  {
    if a != [] {
      UncommaOfRun(a[1..]);
      assert a == [a[0]] + a[1..];
    }
  }

  lemma {:induction false} ConcatAppend(xs: seq<string>, ys: seq<string>)
    ensures Concat(xs + ys) == Concat(xs) + Concat(ys)
    decreases |xs|
  {
    if xs != [] {
      assert (xs + ys)[1..] == xs[1..] + ys;
      ConcatAppend(xs[1..], ys);
    } else {
      assert xs + ys == ys;
    }
  }

  lemma {:induction false} ConcatDropEmpty(xs: seq<string>)
    ensures Concat(DropEmpty(xs)) == Concat(xs)
    decreases |xs|
  {
    if xs != [] {
      ConcatDropEmpty(xs[1..]);
    }
  }

  lemma {:induction false} ConcatSplit(s: string)
    ensures Concat(Split(s)) == Uncomma(s)
    decreases |s|
  {
    var e := CommaIndex(s);
    var head := s[..e];
    assert Comma !in head by {
      forall i | 0 <= i < e ensures head[i] != Comma { }
    }
    UncommaOfRun(head);
    if e == |s| {
      assert head == s;
    } else {
      ConcatSplit(s[e + 1..]);
      assert s == head + ([Comma] + s[e + 1..]);
      UncommaAppend(head, [Comma] + s[e + 1..]);
      assert ([Comma] + s[e + 1..])[1..] == s[e + 1..];
    }
  }

  /**
   * strtok drops nothing but commas: the tokens, end to end, are exactly the
   * line's other characters in order (a trailing '\n' stays in the last token).
   */
  lemma {:induction false} TokensKeepText(line: string)
    ensures Concat(Tokens(line)) == Uncomma(line)
  {
    ConcatDropEmpty(Split(line));
    ConcatSplit(line);
  }

  /**
   * One strtok call on the text `s` it still has to scan: skip commas, then
   * return the run up to the next comma (or the end) and the text after that
   * comma, where the next `strtok(nullptr, ",")` resumes. None when only
   * commas are left.
   */
  function StrTok(s: string): (r: Option<(string, string)>)
    ensures r.None? <==> forall i | 0 <= i < |s| :: s[i] == Comma
    ensures r.Some? ==> |r.value.1| < |s|
    decreases |s|
  {
    if s == [] then None
    else if s[0] == Comma then StrTok(s[1..])
    else
      var e := CommaIndex(s);
      Some((s[..e], if e < |s| then s[e + 1..] else []))
  }

  /** A comma where the scan resumes is skipped. */
  lemma {:induction false} TokensSkipComma(s: string)
    requires s != [] && s[0] == Comma
    ensures Tokens(s) == Tokens(s[1..])
  {
    TokensEmpty();
    TokensAround([], s[1..]);
    assert [] + [Comma] + s[1..] == s;
  }

  /** Text that starts with a non-comma starts with the token up to the first comma. */
  lemma {:induction false} TokensFirst(s: string)
    requires s != [] && s[0] != Comma
    ensures CommaIndex(s) == |s| ==> Tokens(s) == [s]
    ensures CommaIndex(s) < |s| ==> Tokens(s) == [s[..CommaIndex(s)]] + Tokens(s[CommaIndex(s) + 1..])
  {
    var e := CommaIndex(s);
    var head := s[..e];
    assert Comma !in head by {
      forall i | 0 <= i < e ensures head[i] != Comma { }
    }
    assert head != [] by {
      assert s[0] != Comma;
    }
    TokensOfRun(head);
    if e == |s| {
      assert head == s;
    } else {
      var rest := s[e + 1..];
      assert head + [Comma] + rest == s;
      TokensAround(head, rest);
    }
  }

  /** One strtok step yields the first token of what is left and leaves the others. */
  lemma {:induction false} StrTokTokens(s: string)
    ensures StrTok(s).None? ==> Tokens(s) == []
    ensures StrTok(s).Some? ==> Tokens(s) == [StrTok(s).value.0] + Tokens(StrTok(s).value.1)
    decreases |s|
  {
    if s == [] {
      TokensEmpty();
    } else if s[0] == Comma {
      assert StrTok(s) == StrTok(s[1..]);
      StrTokTokens(s[1..]);
      TokensSkipComma(s);
    } else {
      var e := CommaIndex(s);
      TokensFirst(s);
      if e == |s| {
        assert s[..e] == s;
        assert StrTok(s) == Some((s, []));
        TokensEmpty();
      } else {
        assert StrTok(s) == Some((s[..e], s[e + 1..]));
      }
    }
  }

  /**
   * The strtok loop of the loader: copies the line's tokens into
   * `fields[0..count)` and leaves the later rows as they were, so a short
   * line keeps the previous line's values there.
   */
  method ExtractFields(line: string, fields: array<string>) returns (count: nat)
    requires |Tokens(line)| <= fields.Length
    modifies fields
    ensures count == |Tokens(line)|
    ensures fields[..count] == Tokens(line)
    ensures fields[count..] == old(fields[count..])
  {
    var field := StrTok(line);
    StrTokTokens(line);
    count := 0;
    while field.Some?
      invariant count <= fields.Length
      invariant field.None? ==> Tokens(line) == fields[..count]
      invariant field.Some? ==> Tokens(line) == fields[..count] + [field.value.0] + Tokens(field.value.1)
      invariant fields[count..] == old(fields[count..])
      decreases if field.Some? then |field.value.1| + 1 else 0
    {
      var token, rest := field.value.0, field.value.1;
      ghost var done, left := fields[..count], fields[count..];
      fields[count] := token;
      assert fields[..count + 1] == done + [token];
      assert fields[count + 1..] == left[1..];
      count := count + 1;
      StrTokTokens(rest);
      field := StrTok(rest);
    }
  }
}
