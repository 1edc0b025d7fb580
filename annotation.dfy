/**
 * GraphQLTwigEnvironment: the rewrite of `{#graphql ... #}` comment
 * annotations into `{% graphql %}...{% endgraphql %}` tags, and the choice
 * between a sidecar `.gql` file and the annotation in `compileSource`.
 *
 * The annotation pattern is `/{#graphql\s+(?<query>.*?)\s+#\}/s`. `MatchPrefix`
 * is a direct scanner for it; `PcreMatchPrefix` follows the backtracking
 * order of the regular expression engine step by step, and the two are
 * proved equal.
 */
module Annotation {
  import opened Wrappers

  const Open: string := "{#graphql"
  const Close: string := "#}"
  const TagOpen: string := "{% graphql %}"
  const TagClose: string := "{% endgraphql %}"

  /** `\s` without Unicode mode: tab, line feed, vertical tab, form feed, carriage return, space. */
  predicate IsWs(c: char) {
    c == '\t' || c == '\n' || c == '\U{B}' || c == '\U{C}' || c == '\r' || c == ' '
  }

  predicate AllWs(w: string) {
    forall k :: 0 <= k < |w| ==> IsWs(w[k])
  }

  /** `w` occurs in `t` at index `k`. */
  predicate At(t: string, k: nat, w: string) {
    k + |w| <= |t| && t[k..k + |w|] == w
  }

  /** The end of the whitespace run that starts at `i` (a greedy `\s*`). */
  function RunEnd(t: string, i: nat): (j: nat)
    requires i <= |t|
    ensures i <= j <= |t|
    ensures forall k :: i <= k < j ==> IsWs(t[k])
    ensures j == |t| || !IsWs(t[j])
    decreases |t| - i
  {
    if i < |t| && IsWs(t[i]) then RunEnd(t, i + 1) else i
  }

  /** From anywhere inside a run, the run ends at the same place. */
  lemma {:induction false} RunEndInside(t: string, i: nat, y: nat)
    requires i <= |t| && i <= y <= RunEnd(t, i)
    ensures RunEnd(t, y) == RunEnd(t, i)
    decreases y - i
  {
    if i < y {
      RunEndInside(t, i + 1, y);
    }
  }

  /** `#}` occurs at index `k`. */
  predicate CloseAt(t: string, k: nat) {
    k + 1 < |t| && t[k] == '#' && t[k + 1] == '}'
  }

  /** `\s+#}` can start at `x`: a whitespace character whose run is followed by `#}`. */
  predicate ClosesAt(t: string, x: nat)
    requires x <= |t|
  {
    x < |t| && IsWs(t[x]) && CloseAt(t, RunEnd(t, x))
  }

  /** The first index at or after `x` where `\s+#}` can start. */
  function FindClose(t: string, x: nat): (r: Option<nat>)
    requires x <= |t|
    ensures r.Some? ==> x <= r.value < |t| && ClosesAt(t, r.value)
    decreases |t| - x
  {
    if x == |t| then None
    else if ClosesAt(t, x) then Some(x)
    else FindClose(t, x + 1)
  }

  /** Places where `\s+#}` cannot start are skipped. */
  lemma {:induction false} FindCloseSkips(t: string, a: nat, b: nat)
    requires a <= b <= |t|
    requires forall y :: a <= y < b ==> !ClosesAt(t, y)
    ensures FindClose(t, a) == FindClose(t, b)
    decreases b - a
  {
    if a < b {
      FindCloseSkips(t, a + 1, b);
    }
  }

  /** `FindClose` reports the first place: nothing before it, and nothing at all when it finds none. */
  lemma {:induction false} FindCloseFirst(t: string, a: nat, y: nat)
    requires a <= y <= |t| && ClosesAt(t, y)
    ensures FindClose(t, a).Some? && FindClose(t, a).value <= y
    decreases y - a
  {
    if a < y && !ClosesAt(t, a) {
      FindCloseFirst(t, a + 1, y);
    }
  }

  /** A match at the start of the text: the captured query and the length of the matched text. */
  datatype Annotation = Annotation(query: string, len: nat)

  /**
   * The annotation pattern anchored at the start of `t`. The first `\s+` takes
   * the whole whitespace run after the keyword and the lazy query stops at the
   * first `\s+#}` after it; failing that, the first `\s+` gives back one
   * character and the query is empty, which needs a run of two or more
   * directly followed by `#}`.
   */
  function MatchPrefix(t: string): (r: Option<Annotation>)
    ensures r.Some? ==> |Open| < r.value.len <= |t|
  {
    if !At(t, 0, Open) then None
    else
      var e := RunEnd(t, |Open|);
      if e == |Open| then None
      else match FindClose(t, e)
        case Some(x) => Some(Annotation(t[e..x], RunEnd(t, x) + |Close|))
        case None => if e >= |Open| + 2 && CloseAt(t, e) then Some(Annotation("", e + |Close|)) else None
  }

  /**
   * `preg_replace` with the pattern: scan left to right, replace each match by
   * the tags around its query and continue after it; elsewhere copy one
   * character and try again at the next one. Text in which the keyword never
   * occurs comes back unchanged.
   */
  function ReplaceAnnotation(t: string): (r: string)
    ensures NoKeyword(t) ==> r == t
    decreases |t|
  {
    if t == [] then []
    else match MatchPrefix(t)
      case Some(a) => TagOpen + a.query + TagClose + ReplaceAnnotation(t[a.len..])
      case None => [t[0]] + ReplaceAnnotation(t[1..])
  }

  /** The keyword starts at no position of `t`, checked from the front. */
  predicate NoKeyword(t: string)
    decreases |t|
  {
    t == [] || (!At(t, 0, Open) && NoKeyword(t[1..]))
  }

  /** `NoKeyword` says exactly that the keyword occurs at no index. */
  lemma {:induction false} NoKeywordAnywhere(t: string)
    ensures NoKeyword(t) <==> forall k :: 0 <= k <= |t| ==> !At(t, k, Open)
    decreases |t|
  {
    if t != [] {
      NoKeywordAnywhere(t[1..]);
      forall k | 0 <= k <= |t[1..]| ensures At(t[1..], k, Open) <==> At(t, k + 1, Open) {
        AtTail(t, k, Open);
      }
      if NoKeyword(t) {
        forall k | 0 <= k <= |t| ensures !At(t, k, Open) {
          if k > 0 {
            assert !At(t[1..], k - 1, Open);
          }
        }
      }
    }
  }

  // ---------------------------------------------------------------------------
  // The backtracking order of the regular expression engine
  // ---------------------------------------------------------------------------

  /** The second `\s+` taking `n` characters from `x`, then fewer, each time followed by `#}`. */
  function TryTail(t: string, x: nat, n: nat): (r: Option<nat>)
    requires x + n <= |t|
    ensures r.None? <==> forall y :: x < y <= x + n ==> !CloseAt(t, y)
    ensures r.Some? ==> x < r.value - |Close| <= x + n && CloseAt(t, r.value - |Close|)
    decreases n
  {
    if n == 0 then None
    else if CloseAt(t, x + n) then Some(x + n + |Close|)
    else TryTail(t, x, n - 1)
  }

  /** The lazy `(.*?)` from `start` taking `l` characters, then one more each time (`.` matches newlines). */
  function TryLazy(t: string, start: nat, l: nat): (r: Option<Annotation>)
    requires start + l <= |t|
    ensures r.Some? ==> var q := r.value.query;
      l <= |q| && start + |q| < r.value.len <= |t|
    decreases |t| - (start + l)
  {
    var x := start + l;
    match TryTail(t, x, RunEnd(t, x) - x)
    case Some(end) => Some(Annotation(t[start..x], end))
    case None => if x == |t| then None else TryLazy(t, start, l + 1)
  }

  /** The first `\s+` taking `n` characters after the keyword, then fewer. */
  function TryHead(t: string, n: nat): (r: Option<Annotation>)
    requires |Open| + n <= |t|
    ensures r.Some? ==> |Open| < r.value.len <= |t|
    decreases n
  {
    if n == 0 then None
    else match TryLazy(t, |Open| + n, 0)
      case Some(a) => Some(a)
      case None => TryHead(t, n - 1)
  }

  /** The pattern anchored at the start of `t`, in the engine's backtracking order. */
  function PcreMatchPrefix(t: string): (r: Option<Annotation>)
    ensures r.Some? ==> At(t, 0, Open) && |Open| < r.value.len <= |t|
  {
    if !At(t, 0, Open) then None
    else TryHead(t, RunEnd(t, |Open|) - |Open|)
  }

  lemma {:induction false} TryTailShort(t: string, x: nat, n: nat)
    requires x <= |t|
    requires n == 0 || x + n < RunEnd(t, x)
    ensures TryTail(t, x, n) == None
    decreases n
  {
    if n > 0 {
      assert IsWs(t[x + n]);
      TryTailShort(t, x, n - 1);
    }
  }

  /** The greedy second `\s+` succeeds exactly when `\s+#}` starts at `x`. */
  lemma TryTailFull(t: string, x: nat)
    requires x <= |t|
    ensures TryTail(t, x, RunEnd(t, x) - x) == if ClosesAt(t, x) then Some(RunEnd(t, x) + |Close|) else None
  {
    var n := RunEnd(t, x) - x;
    if n > 0 {
      if !CloseAt(t, x + n) {
        TryTailShort(t, x, n - 1);
      }
    }
  }

  /** Where `\s+#}` starts, the lazy query stops. */
  lemma TryLazyHere(t: string, start: nat, l: nat)
    requires start + l <= |t| && ClosesAt(t, start + l)
    ensures TryLazy(t, start, l) == Some(Annotation(t[start..start + l], RunEnd(t, start + l) + |Close|))
  {
    TryTailFull(t, start + l);
  }

  /** Where it does not, the lazy query takes one more character. */
  lemma TryLazyOn(t: string, start: nat, l: nat)
    requires start + l < |t| && !ClosesAt(t, start + l)
    ensures TryLazy(t, start, l) == TryLazy(t, start, l + 1)
  {
    TryTailFull(t, start + l);
  }

  /** With no `\s+#}` ahead, the lazy query never stops. */
  lemma {:induction false} TryLazyNone(t: string, start: nat, l: nat)
    requires start + l <= |t| && FindClose(t, start + l).None?
    ensures TryLazy(t, start, l).None?
    decreases |t| - (start + l)
  {
    var x := start + l;
    if x < |t| {
      assert !ClosesAt(t, x);
      TryLazyOn(t, start, l);
      assert FindClose(t, start + (l + 1)) == FindClose(t, x);
      TryLazyNone(t, start, l + 1);
    } else {
      TryTailFull(t, x);
    }
  }

  /** The lazy query stops at the first `\s+#}` ahead, at `x`. */
  lemma {:induction false} TryLazySome(t: string, start: nat, l: nat, x: nat)
    requires start + l <= |t| && FindClose(t, start + l) == Some(x)
    ensures TryLazy(t, start, l) == Some(Annotation(t[start..x], RunEnd(t, x) + |Close|))
    decreases |t| - (start + l)
  {
    if ClosesAt(t, start + l) {
      assert x == start + l;
      TryLazyHere(t, start, l);
    } else {
      assert start + l < |t|;
      TryLazyOn(t, start, l);
      assert FindClose(t, start + (l + 1)) == Some(x);
      TryLazySome(t, start, l + 1, x);
    }
  }

  /** The lazy query stops at the first place `FindClose` reports. */
  lemma TryLazyFindsClose(t: string, start: nat, l: nat)
    requires start + l <= |t|
    ensures FindClose(t, start + l).None? ==> TryLazy(t, start, l).None?
    ensures FindClose(t, start + l).Some? ==> var x := FindClose(t, start + l).value;
      TryLazy(t, start, l) == Some(Annotation(t[start..x], RunEnd(t, x) + |Close|))
  {
    match FindClose(t, start + l)
    case None => TryLazyNone(t, start, l);
    case Some(x) => TryLazySome(t, start, l, x);
  }

  /** Giving back characters of a run not followed by `#}` never helps. */
  lemma {:induction false} TryHeadShorter(t: string, n: nat)
    requires |Open| <= |t| && |Open| + n <= RunEnd(t, |Open|)
    requires FindClose(t, RunEnd(t, |Open|)).None? && !CloseAt(t, RunEnd(t, |Open|))
    ensures TryHead(t, n) == None
    decreases n
  {
    if n > 0 {
      var s := |Open| + n;
      var e := RunEnd(t, |Open|);
      forall y | s <= y < e ensures !ClosesAt(t, y) {
        RunEndInside(t, |Open|, y);
      }
      FindCloseSkips(t, s, e);
      TryLazyFindsClose(t, s, 0);
      TryHeadShorter(t, n - 1);
    }
  }

  /** The scanner is the engine's leftmost backtracking match. */
  lemma MatchPrefixIsPcre(t: string)
    ensures PcreMatchPrefix(t) == MatchPrefix(t)
  {
    if At(t, 0, Open) && RunEnd(t, |Open|) > |Open| {
      var e := RunEnd(t, |Open|);
      if FindClose(t, e).Some? {
        PcreFullRun(t);
      } else if e == |Open| + 1 {
        PcreShortRun(t);
      } else if CloseAt(t, e) {
        PcreGiveBack(t);
      } else {
        TryHeadShorter(t, e - |Open|);
      }
    }
  }

  /** A close after the whole run: the first `\s+` keeps every character. */
  lemma PcreFullRun(t: string)
    requires At(t, 0, Open) && RunEnd(t, |Open|) > |Open|
    requires FindClose(t, RunEnd(t, |Open|)).Some?
    ensures PcreMatchPrefix(t) == MatchPrefix(t)
  {
    TryLazyFindsClose(t, RunEnd(t, |Open|), 0);
  }

  /** A one-character run and no close after it: nothing matches. */
  lemma PcreShortRun(t: string)
    requires At(t, 0, Open) && RunEnd(t, |Open|) == |Open| + 1
    requires FindClose(t, RunEnd(t, |Open|)).None?
    ensures PcreMatchPrefix(t) == MatchPrefix(t) == None
  {
    TryLazyFindsClose(t, RunEnd(t, |Open|), 0);
    assert TryHead(t, 1) == TryHead(t, 0) == None;
  }

  /** No close after the run, but `#}` right after it: the first `\s+` gives back one character. */
  lemma PcreGiveBack(t: string)
    requires At(t, 0, Open) && RunEnd(t, |Open|) >= |Open| + 2
    requires FindClose(t, RunEnd(t, |Open|)).None? && CloseAt(t, RunEnd(t, |Open|))
    ensures PcreMatchPrefix(t) == MatchPrefix(t) == Some(Annotation("", RunEnd(t, |Open|) + |Close|))
  {
    var e := RunEnd(t, |Open|);
    RunEndInside(t, |Open|, e - 1);
    assert ClosesAt(t, e - 1);
    assert FindClose(t, e - 1) == Some(e - 1);
    GiveBackEngine(t, e);
    GiveBackScanner(t, e);
  }

  /** The engine's side of `PcreGiveBack`. */
  lemma GiveBackEngine(t: string, e: nat)
    requires At(t, 0, Open) && e == RunEnd(t, |Open|) && e >= |Open| + 2
    requires FindClose(t, e).None? && FindClose(t, e - 1) == Some(e - 1)
    ensures PcreMatchPrefix(t) == Some(Annotation("", RunEnd(t, e - 1) + |Close|))
  {
    var n := e - |Open|;
    TryLazyNone(t, e, 0);
    TryHeadStep(t, n);
    TryLazySome(t, e - 1, 0, e - 1);
    assert t[e - 1..e - 1] == "";
    TryHeadHere(t, n - 1);
    assert PcreMatchPrefix(t) == TryHead(t, n);
  }

  /** Where the lazy query fails, the first `\s+` gives back a character. */
  lemma TryHeadStep(t: string, n: nat)
    requires |Open| + n <= |t| && n > 0 && TryLazy(t, |Open| + n, 0).None?
    ensures TryHead(t, n) == TryHead(t, n - 1)
  {
  }

  /** Where the lazy query succeeds, its match is the result. */
  lemma TryHeadHere(t: string, n: nat)
    requires |Open| + n <= |t| && n > 0 && TryLazy(t, |Open| + n, 0).Some?
    ensures TryHead(t, n) == TryLazy(t, |Open| + n, 0)
  {
  }

  /** The scanner's side of `PcreGiveBack`. */
  lemma GiveBackScanner(t: string, e: nat)
    requires At(t, 0, Open) && e == RunEnd(t, |Open|) && e >= |Open| + 2
    requires FindClose(t, e).None? && FindClose(t, e - 1) == Some(e - 1) && CloseAt(t, e)
    ensures MatchPrefix(t) == Some(Annotation("", e + |Close|))
  {
    assert t[e - 1..e - 1] == "";
  }

  // ---------------------------------------------------------------------------
  // What a match is
  // ---------------------------------------------------------------------------

  /**
   * `t` starts with the keyword, a non-empty whitespace `w1`, the query `q`,
   * a non-empty whitespace `w2` and `#}`.
   */
  predicate Shape(t: string, w1: string, q: string, w2: string) {
    |w1| >= 1 && AllWs(w1) && |w2| >= 1 && AllWs(w2) &&
    |Open + w1 + q + w2 + Close| <= |t| && t[..|Open + w1 + q + w2 + Close|] == Open + w1 + q + w2 + Close
  }

  /** Every match has the pattern's shape, with the matched length as its extent. */
  lemma MatchPrefixSound(t: string)
    requires MatchPrefix(t).Some?
    ensures exists w1, w2 ::
      Shape(t, w1, MatchPrefix(t).value.query, w2) &&
      MatchPrefix(t).value.len == |Open + w1 + MatchPrefix(t).value.query + w2 + Close|
  {
    var e := RunEnd(t, |Open|);
    match FindClose(t, e)
    case Some(x) =>
      ShapeFromIndices(t, e, x, RunEnd(t, x));
    case None =>
      ShapeFromIndices(t, e - 1, e - 1, e);
  }

  lemma ShapeFromIndices(t: string, e: nat, x: nat, c: nat)
    requires At(t, 0, Open) && |Open| < e <= x < c && CloseAt(t, c)
    requires forall k :: |Open| <= k < e ==> IsWs(t[k])
    requires forall k :: x <= k < c ==> IsWs(t[k])
    ensures Shape(t, t[|Open|..e], t[e..x], t[x..c])
    ensures |Open + t[|Open|..e] + t[e..x] + t[x..c] + Close| == c + |Close|
  {
    var w1, q, w2 := t[|Open|..e], t[e..x], t[x..c];
    assert AllWs(w1) by {
      forall k | 0 <= k < |w1| ensures IsWs(w1[k]) {
        assert w1[k] == t[|Open| + k];
      }
    }
    assert AllWs(w2) by {
      forall k | 0 <= k < |w2| ensures IsWs(w2[k]) {
        assert w2[k] == t[x + k];
      }
    }
    assert t[c..c + |Close|] == Close;
    assert t[..c + |Close|] == t[..|Open|] + w1 + q + w2 + t[c..c + |Close|];
  }

  /** Text with the pattern's shape at its start always matches (perhaps with another split). */
  lemma MatchPrefixComplete(t: string, w1: string, q: string, w2: string)
    requires Shape(t, w1, q, w2)
    ensures MatchPrefix(t).Some?
  {
    var prefix := Open + w1 + q + w2 + Close;
    assert t[..|Open|] == prefix[..|Open|];
    assert At(t, 0, Open);
    var a := |Open|;
    assert IsWs(t[a]) by {
      assert t[a] == prefix[a] == w1[0];
    }
    var e := RunEnd(t, a);
    var x := a + |w1| + |q|;
    var c := x + |w2|;
    assert forall k :: x <= k < c ==> IsWs(t[k]) by {
      forall k | x <= k < c ensures IsWs(t[k]) {
        assert t[k] == prefix[k] == w2[k - x];
      }
    }
    assert t[c] == '#' by {
      assert t[c] == prefix[c];
    }
    assert RunEnd(t, x) == c by {
      RunEndAcross(t, x, c);
    }
    assert CloseAt(t, c) by {
      assert t[c + 1] == prefix[c + 1];
    }
    assert ClosesAt(t, x) by {
      assert t[x] == prefix[x] == w2[0];
    }
    if FindClose(t, e).None? {
      if e <= x {
        FindCloseFirst(t, e, x);
      } else {
        RunEndInside(t, a, x);
      }
    }
  }

  lemma {:induction false} RunEndAcross(t: string, x: nat, c: nat)
    requires x <= c < |t| && !IsWs(t[c])
    requires forall k :: x <= k < c ==> IsWs(t[k])
    ensures RunEnd(t, x) == c
    decreases c - x
  {
    if x < c {
      RunEndAcross(t, x + 1, c);
    }
  }

  // ---------------------------------------------------------------------------
  // Properties of the rewrite
  // ---------------------------------------------------------------------------

  lemma AtTail(t: string, k: nat, w: string)
    requires |t| >= 1
    ensures At(t[1..], k, w) <==> At(t, k + 1, w)
  {
    if k + |w| <= |t[1..]| {
      assert t[1..][k..k + |w|] == t[k + 1..k + 1 + |w|];
    }
  }

  /** Text that does not start with the keyword keeps its first character. */
  lemma ReplaceCopies(t: string)
    requires |t| >= 1 && !At(t, 0, Open)
    ensures ReplaceAnnotation(t) == [t[0]] + ReplaceAnnotation(t[1..])
  {
    assert MatchPrefix(t).None?;
  }

  /** Text before the first occurrence of the keyword is copied as it is. */
  lemma {:induction false} CopiedUpToKeyword(pre: string, rest: string)
    requires forall k :: 0 <= k < |pre| ==> !At(pre + rest, k, Open)
    ensures ReplaceAnnotation(pre + rest) == pre + ReplaceAnnotation(rest)
    decreases |pre|
  {
    if pre == [] {
      assert pre + rest == rest;
    } else {
      var t := pre + rest;
      assert !At(t, 0, Open);
      assert t[1..] == pre[1..] + rest;
      forall k | 0 <= k < |pre[1..]| ensures !At(pre[1..] + rest, k, Open) {
        AtTail(t, k, Open);
      }
      CopiedUpToKeyword(pre[1..], rest);
      ReplaceCopies(t);
      assert t[0] == pre[0];
      assert [pre[0]] + (pre[1..] + ReplaceAnnotation(rest)) == pre + ReplaceAnnotation(rest);
    }
  }

  /**
   * A well-spaced annotation (one space either side of a query that does not
   * start or end with whitespace and holds no `#`), after text free of the
   * keyword, becomes the tags around its query; the rest is rewritten in turn.
   */
  lemma CanonicalAnnotation(pre: string, q: string, post: string)
    requires forall k :: 0 <= k < |pre| ==> !At(pre + (Open + " " + q + " " + Close + post), k, Open)
    requires |q| >= 1 && !IsWs(q[0]) && !IsWs(q[|q| - 1]) && '#' !in q
    ensures ReplaceAnnotation(pre + (Open + " " + q + " " + Close + post))
      == pre + (TagOpen + q + TagClose + ReplaceAnnotation(post))
  {
    var a := Open + " " + q + " " + Close + post;
    CopiedUpToKeyword(pre, a);
    AnnotationLayout(q, post);
    AnnotationMatch(a, q);
    assert a != [];
  }

  lemma AnnotationLayout(q: string, post: string)
    ensures var t := Open + " " + q + " " + Close + post;
      && |t| == |Open| + |q| + 4 + |post|
      && t[..|Open|] == Open && t[|Open|] == ' '
      && (forall j :: 0 <= j < |q| ==> t[|Open| + 1 + j] == q[j])
      && t[|Open| + 1 + |q|] == ' ' && t[|Open| + 2 + |q|] == '#' && t[|Open| + 3 + |q|] == '}'
      && t[|Open| + |q| + 4..] == post
  {
  }

  /** The whitespace run from `y` stops before a non-whitespace character at `x - 1`. */
  lemma {:induction false} RunStopsBefore(t: string, y: nat, x: nat)
    requires y < x <= |t| && !IsWs(t[x - 1])
    ensures RunEnd(t, y) < x
    decreases x - y
  {
    if IsWs(t[y]) {
      RunStopsBefore(t, y + 1, x);
    }
  }

  lemma AnnotationMatch(t: string, q: string)
    requires |q| >= 1 && !IsWs(q[0]) && !IsWs(q[|q| - 1]) && '#' !in q
    requires |t| >= |Open| + |q| + 4
    requires t[..|Open|] == Open && t[|Open|] == ' '
    requires forall j :: 0 <= j < |q| ==> t[|Open| + 1 + j] == q[j]
    requires t[|Open| + 1 + |q|] == ' ' && t[|Open| + 2 + |q|] == '#' && t[|Open| + 3 + |q|] == '}'
    ensures MatchPrefix(t) == Some(Annotation(q, |Open| + |q| + 4))
  {
    var e := |Open| + 1;
    var x := e + |q|;
    assert t[e] == q[0];
    RunEndAcross(t, |Open|, e);
    RunEndAcross(t, x, x + 1);
    assert ClosesAt(t, x);
    forall y | e <= y < x ensures !ClosesAt(t, y) {
      if IsWs(t[y]) {
        assert t[x - 1] == q[|q| - 1];
        RunStopsBefore(t, y, x);
        var j := RunEnd(t, y);
        assert t[j] == q[j - e];
      }
    }
    FindCloseSkips(t, e, x);
    assert FindClose(t, x) == Some(x);
    assert t[e..x] == q;
  }

  // ---------------------------------------------------------------------------
  // compileSource
  // ---------------------------------------------------------------------------

  /** A template file's source: code, logical name and file path. */
  datatype Source = Source(code: string, name: string, path: string)

  /** What `compileSource` receives: a file source, or inline template code. */
  datatype Input = File(source: Source) | Inline(code: string)

  /**
   * `compileSource` before the parent compiler: for a file whose path plus
   * `.gql` exists among `files` (path to contents), the file's query is put in
   * tags ahead of the unchanged code; otherwise, and always for inline code,
   * annotations are rewritten.
   */
  function CompileSource(input: Input, files: map<string, string>): (r: Input)
    ensures r.File? <==> input.File?
    ensures r.File? ==> r.source.name == input.source.name && r.source.path == input.source.path
  {
    match input
    case File(src) =>
      var sidecar := src.path + ".gql";
      if sidecar in files then File(Source(TagOpen + files[sidecar] + TagClose + src.code, src.name, src.path))
      else File(Source(ReplaceAnnotation(src.code), src.name, src.path))
    case Inline(code) => Inline(ReplaceAnnotation(code))
  }

  /** The sidecar query takes precedence: it is prepended and the code is not rewritten. */
  lemma SidecarWins(src: Source, files: map<string, string>)
    requires src.path + ".gql" in files
    ensures var r := CompileSource(File(src), files).source;
      var head := TagOpen + files[src.path + ".gql"] + TagClose;
      |r.code| == |head| + |src.code| && r.code[..|head|] == head && r.code[|head|..] == src.code
  {
  }

  /** Without a sidecar a file gets the annotation rewrite only. */
  lemma AnnotationWithoutSidecar(src: Source, files: map<string, string>)
    requires src.path + ".gql" !in files
    ensures CompileSource(File(src), files) == File(Source(ReplaceAnnotation(src.code), src.name, src.path))
  {
  }

  /** Inline code never consults the file system. */
  lemma InlineIgnoresFiles(code: string, files1: map<string, string>, files2: map<string, string>)
    ensures CompileSource(Inline(code), files1) == CompileSource(Inline(code), files2)
    ensures CompileSource(Inline(code), files1) == Inline(ReplaceAnnotation(code))
  {
  }
}
