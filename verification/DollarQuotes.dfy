/**
 What the spelling rewriter leaves alone, and what becomes of dollar-quoted literals: the scanner knows only those
 with an empty tag.
 */
module DollarQuotes {
  import opened Wrappers
  import opened Ascii
  import opened SpatialCompat
  import Sequences

  // ---- When a text is left alone --------------------------------------------------------------------

  /** A mapped, called, unquoted word. */
  predicate Renamed(tokens: seq<Token>, i: nat)
    requires i < |tokens|
  {
    tokens[i].kind.Word? && CallFollowsTokens(tokens[i + 1..]) && RewriteName(tokens[i].text).Some?
  }

  /** A text comes back unchanged exactly when none of its tokens is a mapped, called word. */
  lemma UnchangedIff(s: string)
    ensures Rewrite(s) == s <==> forall i :: 0 <= i < |Lex(s)| ==> !Renamed(Lex(s), i)
  {
    var tokens := Lex(s);
    RewriteRenamesTokens(s);
    LexIsLossless(s);
    LexIsLossless(Rewrite(s));
    RenameLength(tokens);
    forall i | 0 <= i < |tokens| ensures Rename(tokens)[i] == tokens[i] <==> !Renamed(tokens, i) {
      RenameTouchesCallsOnly(tokens, i);
      if Renamed(tokens, i) { ReplacementIsFixed(tokens[i].text); }
    }
    assert Rename(tokens) == tokens <==> forall i :: 0 <= i < |tokens| ==> !Renamed(tokens, i);
  }

  /** As scanned from the start of `s`, a word that is renamed starts at `p`. */
  predicate RenamedAt(s: string, p: nat)
    decreases |s|
  {
    s != "" && if p == 0 then NewText(s) != s[..TokenLength(s)]
               else p >= TokenLength(s) && RenamedAt(s[TokenLength(s)..], p - TokenLength(s))
  }

  /** The end of the run of identifier characters that starts at `p`. */
  function RunEnd(s: string, p: nat): (e: nat)
    requires p < |s|
    ensures p < e <= |s|
  {
    p + 1 + WordTail(s[p + 1..])
  }

  /** A word that may be renamed starts at `p`: it is mapped, and called. */
  predicate Renameable(s: string, p: nat)
    requires p < |s|
  {
    var e := RunEnd(s, p);
    IdentifierStart(s[p]) && RewriteName(s[p..e]).Some? && CallFollows(s[e..])
  }

  /** The text with the runs that start at the marks replaced. */
  function Render(s: string, marks: set<nat>, p: nat): string
    requires p <= |s|
    decreases |s| - p
  {
    if p == |s| then ""
    else if p in marks && Renameable(s, p) then RewriteName(s[p..RunEnd(s, p)]).value + Render(s, marks, RunEnd(s, p))
    else [s[p]] + Render(s, marks, p + 1)
  }

  /** Marks that a scan may have left: on words that may be renamed, and never inside one another. */
  ghost predicate Marks(s: string, marks: set<nat>) {
    && (forall p :: p in marks ==> p < |s| && Renameable(s, p))
    && (forall p, q :: p in marks && q in marks && p < q ==> RunEnd(s, p) <= q)
  }

  lemma {:induction false} CopyRun(s: string, marks: set<nat>, p: nat, e: nat)
    requires p <= e <= |s| && forall q :: p <= q < e ==> q !in marks
    ensures Render(s, marks, p) == s[p..e] + Render(s, marks, e)
    decreases e - p
  {
    if p < e {
      CopyRun(s, marks, p + 1, e);
      assert [s[p]] + s[p + 1..e] == s[p..e];
      Sequences.Regroup([s[p]], s[p + 1..e], Render(s, marks, e));
    }
  }

  lemma WordAt(s: string, p: nat)
    requires p < |s| && NewText(s[p..]) != s[p..][..TokenLength(s[p..])]
    ensures Renameable(s, p) && RunEnd(s, p) == p + TokenLength(s[p..])
      && NewText(s[p..]) == RewriteName(s[p..RunEnd(s, p)]).value
  {
    var t := s[p..];
    WordText(t);
    assert t[1..] == s[p + 1..] && t[0] == s[p];
    var n := TokenLength(t);
    assert t[..n] == s[p..p + n] && t[n..] == s[p + n..];
  }

  /** Seen from `p`, a renamed word starts at `q`. */
  predicate RenamedFrom(s: string, p: nat, q: nat)
    requires p <= |s|
  {
    p <= q && RenamedAt(s[p..], q - p)
  }

  /** From `p` on, the marks are those of a scan that starts there. */
  ghost predicate Scanned(s: string, marks: set<nat>, p: nat) {
    p <= |s| && forall q :: p <= q ==> (q in marks <==> RenamedFrom(s, p, q))
  }

  /** The marks on the token at `p`, which ends at `next`. */
  ghost predicate TokenMarked(s: string, marks: set<nat>, p: nat, next: nat) {
    && p < |s| && next == p + TokenLength(s[p..])
    && (p in marks <==> NewText(s[p..]) != s[p..][..TokenLength(s[p..])])
    && (forall q :: p < q < next ==> q !in marks)
  }

  lemma RenamedFirst(s: string, p: nat, q: nat)
    requires p < |s| && p <= q
    ensures var next := p + TokenLength(s[p..]);
      && (q == p ==> (RenamedFrom(s, p, q) <==> NewText(s[p..]) != s[p..][..TokenLength(s[p..])]))
      && (p < q < next ==> !RenamedFrom(s, p, q))
      && (q >= next ==> (RenamedFrom(s, p, q) <==> RenamedFrom(s, next, q)))
  {
    var t := s[p..];
    assert t[TokenLength(t)..] == s[p + TokenLength(t)..];
  }

  lemma ScanGoesOn(s: string, marks: set<nat>, p: nat) returns (next: nat)
    requires p < |s| && Scanned(s, marks, p)
    ensures p < next && TokenMarked(s, marks, p, next) && Scanned(s, marks, next)
  {
    next := p + TokenLength(s[p..]);
    RenamedFirst(s, p, p);
    forall q | next <= q ensures q in marks <==> RenamedFrom(s, next, q) {
      RenamedFirst(s, p, q);
    }
    forall q | p < q < next ensures q !in marks {
      RenamedFirst(s, p, q);
    }
  }

  lemma RewriteFirst(s: string, p: nat, next: nat)
    requires p < |s| && next == p + TokenLength(s[p..])
    ensures Rewrite(s[p..]) == NewText(s[p..]) + Rewrite(s[next..])
  {
    assert s[p..][TokenLength(s[p..])..] == s[next..];
  }

  lemma RenderFirst(s: string, marks: set<nat>, p: nat, next: nat)
    requires TokenMarked(s, marks, p, next)
    ensures Render(s, marks, p) == NewText(s[p..]) + Render(s, marks, next)
  {
    if p in marks { RenderRenamed(s, marks, p, next); } else { RenderKept(s, marks, p, next); }
  }

  lemma RenderRenamed(s: string, marks: set<nat>, p: nat, next: nat)
    requires p < |s| && next == p + TokenLength(s[p..]) && p in marks
      && NewText(s[p..]) != s[p..][..TokenLength(s[p..])]
    ensures Render(s, marks, p) == NewText(s[p..]) + Render(s, marks, next)
  {
    WordAt(s, p);
    RenderMarked(s, marks, p);
  }

  lemma RenderMarked(s: string, marks: set<nat>, p: nat)
    requires p < |s| && p in marks && Renameable(s, p)
    ensures Render(s, marks, p) == RewriteName(s[p..RunEnd(s, p)]).value + Render(s, marks, RunEnd(s, p))
  {
  }

  lemma RenderKept(s: string, marks: set<nat>, p: nat, next: nat)
    requires p < |s| && next == p + TokenLength(s[p..]) && NewText(s[p..]) == s[p..][..TokenLength(s[p..])]
    requires forall q :: p <= q < next ==> q !in marks
    ensures Render(s, marks, p) == NewText(s[p..]) + Render(s, marks, next)
  {
    CopyRun(s, marks, p, next);
    assert s[p..][..next - p] == s[p..next];
  }

  /** Both take the same text for the token at `p` and go on after it. */
  lemma OneToken(s: string, marks: set<nat>, p: nat, next: nat) returns (text: string)
    requires TokenMarked(s, marks, p, next)
    ensures Render(s, marks, p) == text + Render(s, marks, next) && Rewrite(s[p..]) == text + Rewrite(s[next..])
  {
    text := NewText(s[p..]);
    RenderFirst(s, marks, p, next);
    RewriteFirst(s, p, next);
  }

  /** Rendering with the marks of a scan that starts at `p` is rewriting from there. */
  lemma {:induction false} RenderIsRewrite(s: string, marks: set<nat>, p: nat)
    requires Scanned(s, marks, p)
    ensures Render(s, marks, p) == Rewrite(s[p..])
    decreases |s| - p
  {
    if p < |s| {
      var next := ScanGoesOn(s, marks, p);
      var text := OneToken(s, marks, p, next);
      RenderIsRewrite(s, marks, next);
    }
  }

  // ---- The marks can be read off the result -------------------------------------------------------

  lemma {:induction false} FoundAt(identifier: string, k: nat) returns (i: nat)
    requires k <= MAPPED && RewriteNameFrom(identifier, k).Some?
    ensures i < MAPPED && EqualIgnoringCase(identifier, Mapping(i).0)
      && RewriteNameFrom(identifier, k).value == Mapping(i).1
    decreases MAPPED - k
  {
    if EqualIgnoringCase(identifier, Mapping(k).0) { i := k; } else { i := FoundAt(identifier, k + 1); }
  }

  lemma ReplacementShape(i: nat)
    requires i < MAPPED
    ensures var m := Mapping(i);
      || (|m.1| >= 16 && m.1[0] == 'q')
      || (i == 3 && |m.1| == 8 && |m.0| == 12)
      || (i == 8 && |m.1| == 10 && |m.0| == 12)
  {
  }

  /** Renaming a word and renaming only a part at its end never give the same. */
  lemma NoSuffixClash(w: string, k: nat)
    requires 0 < k < |w| && RewriteName(w).Some? && RewriteName(w[k..]).Some?
    ensures RewriteName(w).value != w[..k] + RewriteName(w[k..]).value
  {
    var i := FoundAt(w, 0);
    var j := FoundAt(w[k..], 0);
    ReplacementShape(i);
    ReplacementShape(j);
    MappedLooks(i);
    Clash(w, k, Mapping(i).0, Mapping(i).1, Mapping(j).0, Mapping(j).1);
  }

  lemma Clash(w: string, k: nat, name: string, r: string, name': string, r': string)
    requires 0 < k < |w| && EqualIgnoringCase(w, name) && EqualIgnoringCase(w[k..], name') && !LooksReplaced(name)
    requires (|r| >= 16 && r[0] == 'q') || (|r| == 8 && |name| == 12) || (|r| == 10 && |name| == 12)
    requires (|r'| >= 16 && r'[0] == 'q') || (|r'| == 8 && |name'| == 12) || (|r'| == 10 && |name'| == 12)
    ensures r != w[..k] + r'
  {
    assert FoldChar(w[0]) == FoldChar(name[0]);
  }

  predicate AllContinue(s: string) {
    forall i :: 0 <= i < |s| ==> IdentifierContinue(s[i])
  }

  /** Two runs of identifier characters in front of something else: if the texts are equal so are the runs. */
  lemma RunsEqual(r: string, x: string, y: string, z: string)
    requires AllContinue(r) && AllContinue(y) && r + x == y + z
    requires x != "" && !IdentifierContinue(x[0]) && z != "" && !IdentifierContinue(z[0])
    ensures r == y
  {
    var s := r + x;
    assert s[|r|] == x[0] && s[|y|] == z[0];
    assert (forall i :: 0 <= i < |r| ==> s[i] == r[i]) && forall i :: 0 <= i < |y| ==> s[i] == y[i];
    assert |r| == |y|;
  }

  lemma CancelFront(a: string, x: string, y: string)
    requires a + x == a + y
    ensures x == y
  {
    assert (a + x)[|a|..] == x && (a + y)[|a|..] == y;
  }

  /** Inside a run every later position ends where the run ends. */
  lemma RunSuffix(s: string, p: nat, f: nat)
    requires p < |s| && p < f < RunEnd(s, p)
    ensures RunEnd(s, f) == RunEnd(s, p)
  {
    var e := RunEnd(s, p);
    var t := s[p + 1..];
    assert forall i :: 0 <= i < e - p - 1 ==> t[i] == s[p + 1 + i];
    assert s[f + 1..] == s[f + 1..e] + s[e..];
    assert e < |s| ==> s[e] == t[e - p - 1];
    WordLength(s[f + 1..e], s[e..]);
  }

  lemma RunContinues(s: string, p: nat)
    requires p < |s| && IdentifierStart(s[p])
    ensures AllContinue(s[p..RunEnd(s, p)])
    ensures RunEnd(s, p) < |s| ==> !IdentifierContinue(s[RunEnd(s, p)])
  {
    var t, e := s[p + 1..], RunEnd(s, p);
    forall i | 0 <= i < e - p ensures IdentifierContinue(s[p..e][i]) {
      if i > 0 { assert s[p..e][i] == t[i - 1]; }
    }
    assert e < |s| ==> s[e] == t[e - p - 1];
  }

  /** A called word is followed by something that is not part of a word. */
  lemma RenameableEnds(s: string, p: nat)
    requires p < |s| && Renameable(s, p)
    ensures RunEnd(s, p) < |s| && !IdentifierContinue(s[RunEnd(s, p)]) && AllContinue(s[p..RunEnd(s, p)])
  {
    RunContinues(s, p);
  }

  lemma RenderPlain(s: string, marks: set<nat>, e: nat)
    requires e < |s| && !IdentifierContinue(s[e])
    ensures Render(s, marks, e) != "" && Render(s, marks, e)[0] == s[e]
  {
  }

  lemma OnlyOneInside(s: string, marks: set<nat>, p: nat, f: nat)
    requires p < |s| && Marks(s, marks) && p !in marks && p < f < RunEnd(s, p) && f in marks
    ensures RunEnd(s, f) == RunEnd(s, p) && forall q :: p <= q < f ==> q !in marks
  {
    RunSuffix(s, p, f);
    forall q | p < q < f ensures q !in marks { RunSuffix(s, p, q); }
  }

  /** The run from `p` is `w`, and only its part from `k` on is renamed. */
  lemma PartRenamed(w: string, k: nat) returns (y: string)
    requires 0 < k < |w| && AllContinue(w) && RewriteName(w).Some? && RewriteName(w[k..]).Some?
    ensures y == w[..k] + RewriteName(w[k..]).value && AllContinue(y) && y != RewriteName(w).value
  {
    y := w[..k] + RewriteName(w[k..]).value;
    ReplacementIsFixed(w[k..]);
    NoSuffixClash(w, k);
  }

  lemma RenderPart(s: string, marks: set<nat>, p: nat, f: nat)
    requires p <= f < |s| && f in marks && Renameable(s, f) && forall q :: p <= q < f ==> q !in marks
    ensures Render(s, marks, p) == s[p..f] + RewriteName(s[f..RunEnd(s, f)]).value + Render(s, marks, RunEnd(s, f))
  {
    CopyRun(s, marks, p, f);
    RenderMarked(s, marks, f);
    Sequences.Regroup(s[p..f], RewriteName(s[f..RunEnd(s, f)]).value, Render(s, marks, RunEnd(s, f)));
  }

  lemma PartOfRun(s: string, marks: set<nat>, p: nat, f: nat, e: nat, w: string) returns (y: string)
    requires p < f < e < |s| && w == s[p..e] && AllContinue(w) && RewriteName(w).Some?
    requires f in marks && Renameable(s, f) && RunEnd(s, f) == e && forall q :: p <= q < f ==> q !in marks
    ensures Render(s, marks, p) == y + Render(s, marks, e) && AllContinue(y) && y != RewriteName(w).value
  {
    var x := s[f..e];
    RenderPart(s, marks, p, f);
    assert w[f - p..] == x && w[..f - p] == s[p..f];
    y := PartRenamed(w, f - p);
  }

  lemma WholeRun(s: string, marks: set<nat>, p: nat, e: nat, w: string)
    requires p < e < |s| && w == s[p..e] && RewriteName(w).Some? && forall q :: p <= q < e ==> q !in marks
    ensures Render(s, marks, p) == w + Render(s, marks, e) && w != RewriteName(w).value
  {
    CopyRun(s, marks, p, e);
    ReplacementIsFixed(w);
  }

  /** What becomes of a run whose start is not marked: something else than the replacement of the whole run. */
  lemma UnmarkedRun(s: string, marks: set<nat>, p: nat) returns (y: string)
    requires p < |s| && Renameable(s, p) && Marks(s, marks) && p !in marks
    ensures Render(s, marks, p) == y + Render(s, marks, RunEnd(s, p))
    ensures AllContinue(y) && y != RewriteName(s[p..RunEnd(s, p)]).value
  {
    var e := RunEnd(s, p);
    RenameableEnds(s, p);
    if f :| p < f < e && f in marks {
      OnlyOneInside(s, marks, p, f);
      y := PartOfRun(s, marks, p, f, e, s[p..e]);
    } else {
      y := s[p..e];
      WholeRun(s, marks, p, e, y);
    }
  }

  /** A mark makes a difference. */
  lemma MarkShows(s: string, m: set<nat>, n: set<nat>, p: nat)
    requires p < |s| && Marks(s, m) && Marks(s, n) && p in m && p !in n
    ensures Render(s, m, p) != Render(s, n, p)
  {
    var e := RunEnd(s, p);
    var r := RewriteName(s[p..e]).value;
    RenameableEnds(s, p);
    RenderMarked(s, m, p);
    ReplacementIsFixed(s[p..e]);
    var y := UnmarkedRun(s, n, p);
    RenderPlain(s, m, e);
    RenderPlain(s, n, e);
    if r + Render(s, m, e) == y + Render(s, n, e) {
      RunsEqual(r, Render(s, m, e), y, Render(s, n, e));
    }
  }

  /** `p` is not inside a marked word. */
  ghost predicate Outside(s: string, marks: set<nat>, p: nat) {
    forall q :: q in marks && q < p ==> q < |s| && RunEnd(s, q) <= p
  }

  lemma OutsideAfter(s: string, marks: set<nat>, p: nat)
    requires p < |s| && Marks(s, marks) && Outside(s, marks, p)
    ensures p in marks ==> Outside(s, marks, RunEnd(s, p)) && forall q :: p < q < RunEnd(s, p) ==> q !in marks
    ensures p !in marks ==> Outside(s, marks, p + 1)
  {
  }

  lemma BothMarked(s: string, m: set<nat>, n: set<nat>, p: nat, e: nat)
    requires p < |s| && p in m && p in n && Renameable(s, p) && Render(s, m, p) == Render(s, n, p) && e == RunEnd(s, p)
    ensures Render(s, m, e) == Render(s, n, e)
  {
    RenderMarked(s, m, p);
    RenderMarked(s, n, p);
    CancelFront(RewriteName(s[p..e]).value, Render(s, m, e), Render(s, n, e));
  }

  lemma NeitherMarked(s: string, m: set<nat>, n: set<nat>, p: nat)
    requires p < |s| && p !in m && p !in n && Render(s, m, p) == Render(s, n, p)
    ensures Render(s, m, p + 1) == Render(s, n, p + 1)
  {
    CopyRun(s, m, p, p + 1);
    CopyRun(s, n, p, p + 1);
    CancelFront(s[p..p + 1], Render(s, m, p + 1), Render(s, n, p + 1));
  }

  /** Equal results come from equal marks up to the next place, and from there on. */
  lemma SameStep(s: string, m: set<nat>, n: set<nat>, p: nat) returns (next: nat)
    requires p < |s| && Marks(s, m) && Marks(s, n) && Outside(s, m, p) && Outside(s, n, p)
    requires Render(s, m, p) == Render(s, n, p)
    ensures p < next <= |s| && Outside(s, m, next) && Outside(s, n, next) && Render(s, m, next) == Render(s, n, next)
    ensures forall q :: p <= q < next ==> (q in m <==> q in n)
  {
    OutsideAfter(s, m, p);
    OutsideAfter(s, n, p);
    if p in m && p !in n { MarkShows(s, m, n, p); }
    if p in n && p !in m { MarkShows(s, n, m, p); }
    if p in m {
      next := RunEnd(s, p);
      BothMarked(s, m, n, p, next);
    } else {
      next := p + 1;
      NeitherMarked(s, m, n, p);
    }
  }

  lemma {:induction false} SameMarks(s: string, m: set<nat>, n: set<nat>, p: nat)
    requires p <= |s| && Marks(s, m) && Marks(s, n) && Outside(s, m, p) && Outside(s, n, p)
    requires Render(s, m, p) == Render(s, n, p)
    ensures forall q :: p <= q ==> (q in m <==> q in n)
    decreases |s| - p
  {
    if p < |s| {
      var next := SameStep(s, m, n, p);
      SameMarks(s, m, n, next);
    }
  }

  // ---- The exact condition --------------------------------------------------------------------------

  lemma {:induction false} ScannedMark(s: string, marks: set<nat>, p: nat, q: nat)
    requires Scanned(s, marks, p) && p <= q && q in marks
    ensures q < |s| && Renameable(s, q) && forall r :: r in marks && q < r ==> RunEnd(s, q) <= r
    decreases |s| - p
  {
    if p < |s| {
      var next := ScanGoesOn(s, marks, p);
      if q == p { WordAt(s, p); } else { ScannedMark(s, marks, next, q); }
    }
  }

  lemma ScannedMarks(s: string, marks: set<nat>, p: nat)
    requires Scanned(s, marks, p) && forall q :: q in marks ==> p <= q
    ensures Marks(s, marks)
  {
    forall q | q in marks ensures q < |s| && Renameable(s, q) && forall r :: r in marks && q < r ==> RunEnd(s, q) <= r {
      ScannedMark(s, marks, p, q);
    }
  }

  lemma {:induction false} RenamedInside(t: string, q: nat)
    requires RenamedAt(t, q)
    ensures q < |t|
    decreases |t|
  {
    if q > 0 { RenamedInside(t[TokenLength(t)..], q - TokenLength(t)); }
  }

  /** The marks that a scan starting at `p` leaves. */
  function MarksFrom(s: string, p: nat): set<nat>
    requires p <= |s|
  {
    set q | p <= q < |s| && RenamedFrom(s, p, q)
  }

  lemma MarksFromScan(s: string, p: nat)
    requires p <= |s|
    ensures Scanned(s, MarksFrom(s, p), p) && Marks(s, MarksFrom(s, p))
  {
    forall q: nat | RenamedFrom(s, p, q) ensures q < |s| { RenamedInside(s[p..], q - p); }
    ScannedMarks(s, MarksFrom(s, p), p);
  }

  /** The text in front is copied and the rest is rewritten as it would be on its own. */
  predicate LeftAlone(a: string, rest: string) {
    Rewrite(a + rest) == a + Rewrite(rest)
  }

  /**
   Exactly when that is so: scanning the whole text finds the words to rename at the same places as scanning the
   rest alone, hence none in front.
   */
  lemma LeftAloneIff(a: string, rest: string)
    ensures LeftAlone(a, rest) <==> MarksFrom(a + rest, 0) == MarksFrom(a + rest, |a|)
  {
    var s := a + rest;
    var m, n := MarksFrom(s, 0), MarksFrom(s, |a|);
    MarksFromScan(s, 0);
    MarksFromScan(s, |a|);
    assert s[0..] == s && s[|a|..] == rest && s[0..|a|] == a;
    RenderIsRewrite(s, m, 0);
    RenderIsRewrite(s, n, |a|);
    CopyRun(s, n, 0, |a|);
    if Render(s, m, 0) == Render(s, n, 0) {
      SameMarks(s, m, n, 0);
      assert m == n;
    }
  }

  // ---- Where tokens end -------------------------------------------------------------------------------

  lemma {:induction false} QuotedEnd(s: string, quote: char)
    requires QuotedTail(s, quote) < |s|
    ensures QuotedTail(s, quote) > 0 && s[QuotedTail(s, quote) - 1] == quote
    decreases |s|
  {
    if s[0] == quote {
      if |s| > 1 && s[1] == quote { QuotedEnd(s[2..], quote); }
    } else {
      QuotedEnd(s[1..], quote);
    }
  }

  lemma {:induction false} LineEnd(s: string)
    requires LineTail(s) < |s|
    ensures s[LineTail(s)] == '\n'
    decreases |s|
  {
    if s[0] != '\n' { LineEnd(s[1..]); }
  }

  lemma {:induction false} BlockEnd(s: string, depth: nat)
    requires depth > 0 && BlockTail(s, depth) < |s|
    ensures BlockTail(s, depth) > 0 && s[BlockTail(s, depth) - 1] == '/'
    decreases |s|
  {
    if Pair(s, '/', '*') { BlockEnd(s[2..], depth + 1); }
    else if Pair(s, '*', '/') { if depth > 1 { BlockEnd(s[2..], depth - 1); } }
    else { BlockEnd(s[1..], depth); }
  }

  lemma {:induction false} DollarEnd(s: string, delimiter: string)
    requires delimiter != "" && DollarTail(s, delimiter) < |s|
    ensures var n := DollarTail(s, delimiter); n > 0 && s[n - 1] == delimiter[|delimiter| - 1]
    decreases |s|
  {
    if StartsWith(s, delimiter) {
      assert s[..|delimiter|][|delimiter| - 1] == s[|delimiter| - 1];
    } else {
      DollarEnd(s[1..], delimiter);
    }
  }

  /** No token ends inside a run of identifier characters that it does not start with. */
  lemma EndsBetween(s: string)
    requires s != "" && TokenLength(s) < |s| && TokenLength(s) > 1
    requires IdentifierContinue(s[TokenLength(s)])
    ensures !IdentifierContinue(s[TokenLength(s) - 1]) || s[TokenLength(s) - 1] == '$'
  {
    var n := TokenLength(s);
    if s[0] == '\'' || s[0] == '"' {
      QuotedText(s);
      QuotedEnd(s[1..], s[0]);
    } else if Opens(s) {
      OpenedToken(s);
      if Pair(s, '-', '-') { LineEnd(s[2..]); }
      else if Pair(s, '/', '*') { BlockEnd(s[2..], 1); }
      else { DollarEnd(s[2..], "$$"); }
    } else if IdentifierStart(s[0]) {
      WordText(s);
    } else {
      SymbolText(s);
    }
  }

  // ---- A literal with a tag -----------------------------------------------------------------------

  /** A tag is empty or an identifier without a dollar. */
  predicate IsTag(tag: string) {
    tag != "" ==> IdentifierStart(tag[0]) && forall i :: 0 <= i < |tag| ==> IdentifierContinue(tag[i]) && tag[i] != '$'
  }

  function Delimiter(tag: string): string {
    "$" + tag + "$"
  }

  function Literal(tag: string, body: string): string {
    Delimiter(tag) + body + Delimiter(tag)
  }

  /** The first delimiter after the opening one is the closing one. */
  predicate Encloses(tag: string, body: string) {
    forall i :: 0 <= i < |body| ==> !StartsWith((body + Delimiter(tag))[i..], Delimiter(tag))
  }

  /** The kind of the last token. */
  function LastKind(s: string): Kind
    requires s != ""
  {
    if TokenLength(s) == |s| then KindOf(s) else LastKind(s[TokenLength(s)..])
  }

  /** The text ends like a tagged literal: with an identifier and a dollar. */
  predicate EndsTagged(s: string, tag: string) {
    IsTag(tag) && tag != "" && |s| > |tag| && s[|s| - |tag| - 1..] == tag + "$"
  }

  lemma TaggedChars(s: string, tag: string)
    requires EndsTagged(s, tag)
    ensures IdentifierStart(s[|s| - |tag| - 1]) && s[|s| - 1] == '$'
    ensures forall i :: |s| - |tag| - 1 <= i < |s| - 1 ==> IdentifierContinue(s[i]) && s[i] != '$'
  {
    var k := |s| - |tag| - 1;
    assert forall i :: k <= i < |s| ==> s[i] == (tag + "$")[i - k];
  }

  lemma TailEndsTagged(s: string, tag: string, n: nat)
    requires EndsTagged(s, tag) && n + |tag| < |s|
    ensures EndsTagged(s[n..], tag)
  {
    assert s[n..][|s[n..]| - |tag| - 1..] == s[|s| - |tag| - 1..];
  }

  /** The first token ends before the final identifier, or takes all of it. */
  lemma TokenBeforeTag(s: string, tag: string)
    requires EndsTagged(s, tag) && TokenLength(s) < |s|
    ensures TokenLength(s) + |tag| < |s|
  {
    var n, k := TokenLength(s), |s| - |tag| - 1;
    TaggedChars(s, tag);
    if k < n {
      if n == 1 {
        WordText(s);
      } else {
        EndsBetween(s);
      }
    }
  }

  /** Its last token is a word, or one that was opened and never closed. */
  lemma {:induction false} TaggedLastKind(s: string, tag: string)
    requires EndsTagged(s, tag)
    ensures !LastKind(s).Symbol?
    decreases |s|
  {
    TaggedChars(s, tag);
    if TokenLength(s) < |s| {
      TokenBeforeTag(s, tag);
      TailEndsTagged(s, tag, TokenLength(s));
      TaggedLastKind(s[TokenLength(s)..], tag);
    }
  }

  // ---- What follows a literal that ends in a word -----------------------------------------------------

  /** What follows cannot be taken for a part of a word. */
  predicate Separate(rest: string) {
    rest != "" ==> !IdentifierContinue(rest[0])
  }

  lemma MappedHasNoDollar(i: nat)
    requires i < MAPPED
    ensures var name := Mapping(i).0; name != "" && FoldChar(name[|name| - 1]) != '$'
  {
  }

  lemma DollarUnmapped(word: string)
    requires word != "" && word[|word| - 1] == '$'
    ensures RewriteName(word).None?
  {
    if RewriteName(word).Some? {
      var i := FoundAt(word, 0);
      MappedHasNoDollar(i);
    }
  }

  lemma {:induction false} CallsInside(s: string, rest: string)
    requires s != "" && !Whitespace(s[|s| - 1])
    ensures CallFollows(s + rest) <==> CallFollows(s)
    decreases |s|
  {
    if Whitespace(s[0]) {
      assert (s + rest)[1..] == s[1..] + rest;
      CallsInside(s[1..], rest);
    }
  }

  /** A token that is not the last is the same when something is added at the end. */
  lemma AppendKeepsToken(s: string, rest: string)
    requires s != "" && TokenLength(s) < |s|
    ensures KindOf(s + rest) == KindOf(s) && TokenLength(s + rest) == TokenLength(s)
    ensures (s + rest)[..TokenLength(s)] == s[..TokenLength(s)]
      && (s + rest)[TokenLength(s)..] == s[TokenLength(s)..] + rest
  {
    var n := TokenLength(s);
    TokenStable(s, s[n..] + rest);
    assert s[..n] + (s[n..] + rest) == s + rest;
  }

  lemma AppendKeepsText(s: string, rest: string)
    requires s != "" && TokenLength(s) < |s| && s[|s| - 1] == '$'
    ensures NewText(s + rest) == NewText(s)
  {
    AppendKeepsToken(s, rest);
    CallsInside(s[TokenLength(s)..], rest);
  }

  lemma FirstAppended(s: string, rest: string) returns (text: string)
    requires s != "" && TokenLength(s) < |s| && s[|s| - 1] == '$'
    ensures Rewrite(s + rest) == text + Rewrite(s[TokenLength(s)..] + rest)
    ensures Rewrite(s) == text + Rewrite(s[TokenLength(s)..])
  {
    text := NewText(s);
    AppendKeepsText(s, rest);
    AppendKeepsToken(s, rest);
  }

  /** The only token is a word with a dollar at its end: nothing separate that follows changes it. */
  lemma LastWord(s: string, rest: string)
    requires s != "" && TokenLength(s) == |s| && KindOf(s).Word? && s[|s| - 1] == '$' && Separate(rest)
    ensures Rewrite(s + rest) == s + Rewrite(rest) && Rewrite(s) == s
  {
    WordText(s);
    assert forall i :: 0 < i < |s| ==> s[i] == s[1..][i - 1];
    WordToken(s, rest);
    DollarUnmapped(s);
    assert s[..|s|] == s && s[|s|..] == "" && (s + rest)[..|s|] == s && (s + rest)[|s|..] == rest;
    WordText(s + rest);
  }

  /** A text that ends in such a word and what follows it are rewritten each on its own. */
  lemma {:induction false} SplitAfterWord(s: string, rest: string)
    requires s != "" && LastKind(s).Word? && s[|s| - 1] == '$' && Separate(rest)
    ensures Rewrite(s + rest) == Rewrite(s) + Rewrite(rest)
    decreases |s|
  {
    if TokenLength(s) == |s| {
      LastWord(s, rest);
    } else {
      var tail := s[TokenLength(s)..];
      var text := FirstAppended(s, rest);
      SplitAfterWord(tail, rest);
      Sequences.Regroup(text, Rewrite(tail), Rewrite(rest));
    }
  }

  // ---- What follows a literal that ends in an open token ------------------------------------------------

  /** Text that closes nothing. */
  predicate Quiet(rest: string) {
    forall i :: 0 <= i < |rest| ==> rest[i] !in ['\'', '"', '\n', '*', '/', '$']
  }

  lemma {:induction false} QuotedQuiet(s: string, quote: char)
    requires forall i :: 0 <= i < |s| ==> s[i] != quote
    ensures QuotedTail(s, quote) == |s|
    decreases |s|
  {
    if s != "" { QuotedQuiet(s[1..], quote); }
  }

  lemma {:induction false} QuotedOpen(s: string, quote: char, rest: string)
    requires QuotedTail(s, quote) == |s| && s != "" && s[|s| - 1] == '$' != quote
    requires forall i :: 0 <= i < |rest| ==> rest[i] != quote
    ensures QuotedTail(s + rest, quote) == |s + rest|
    decreases |s|
  {
    var t := s + rest;
    if s[0] == quote {
      assert t[2..] == s[2..] + rest;
      QuotedOpen(s[2..], quote, rest);
    } else {
      assert t[1..] == s[1..] + rest;
      if |s| == 1 { QuotedQuiet(t[1..], quote); } else { QuotedOpen(s[1..], quote, rest); }
    }
  }

  lemma {:induction false} LineOpen(s: string, rest: string)
    requires LineTail(s) == |s| && forall i :: 0 <= i < |rest| ==> rest[i] != '\n'
    ensures LineTail(s + rest) == |s + rest|
    decreases |s + rest|
  {
    var t := s + rest;
    if s != "" {
      assert t[1..] == s[1..] + rest;
      LineOpen(s[1..], rest);
    } else if rest != "" {
      assert t == rest && "" + rest[1..] == rest[1..];
      LineOpen("", rest[1..]);
    }
  }

  lemma {:induction false} BlockQuiet(s: string, depth: nat)
    requires depth > 0 && forall i :: 0 <= i < |s| ==> s[i] != '*' && s[i] != '/'
    ensures BlockTail(s, depth) == |s|
    decreases |s|
  {
    if s != "" { BlockQuiet(s[1..], depth); }
  }

  lemma {:induction false} BlockOpen(s: string, depth: nat, rest: string)
    requires depth > 0 && BlockTail(s, depth) == |s| && s != "" && s[|s| - 1] == '$'
    requires forall i :: 0 <= i < |rest| ==> rest[i] != '*' && rest[i] != '/'
    ensures BlockTail(s + rest, depth) == |s + rest|
    decreases |s|
  {
    var t := s + rest;
    if Pair(s, '/', '*') {
      assert t[2..] == s[2..] + rest;
      BlockOpen(s[2..], depth + 1, rest);
    } else if Pair(s, '*', '/') {
      assert t[2..] == s[2..] + rest;
      BlockOpen(s[2..], depth - 1, rest);
    } else {
      assert t[1..] == s[1..] + rest;
      if |s| == 1 { BlockQuiet(t[1..], depth); } else { BlockOpen(s[1..], depth, rest); }
    }
  }

  lemma {:induction false} DollarQuiet(s: string)
    requires forall i :: 0 <= i < |s| ==> s[i] != '$'
    ensures DollarTail(s, "$$") == |s|
    decreases |s|
  {
    if s != "" {
      assert |s| > 1 ==> s[..2] == [s[0], s[1]];
      DollarQuiet(s[1..]);
    }
  }

  lemma {:induction false} DollarOpen(s: string, rest: string)
    requires DollarTail(s, "$$") == |s| && s != "" && s[|s| - 1] == '$' && (|s| > 1 ==> s[|s| - 2] != '$')
    requires forall i :: 0 <= i < |rest| ==> rest[i] != '$'
    ensures DollarTail(s + rest, "$$") == |s + rest|
    decreases |s|
  {
    var t := s + rest;
    assert t[1..] == s[1..] + rest;
    if |t| > 1 { assert t[..2] == [t[0], t[1]]; }
    if |s| == 1 {
      DollarQuiet(t[1..]);
    } else {
      assert s[..2] == [s[0], s[1]];
      DollarOpen(s[1..], rest);
    }
  }

  lemma OpenToken(s: string, tag: string, rest: string)
    requires EndsTagged(s, tag) && TokenLength(s) == |s| && !KindOf(s).Word? && Quiet(rest)
    ensures TokenLength(s + rest) == |s + rest| && !KindOf(s + rest).Word?
  {
    var t := s + rest;
    TaggedChars(s, tag);
    if s[0] == '\'' || s[0] == '"' {
      assert t[1..] == s[1..] + rest;
      QuotedOpen(s[1..], s[0], rest);
    } else if Opens(s) {
      OpenedToken(s);
      OpenedToken(t);
      assert t[2..] == s[2..] + rest;
      if Pair(s, '-', '-') { LineOpen(s[2..], rest); }
      else if Pair(s, '/', '*') { BlockOpen(s[2..], 1, rest); }
      else { DollarOpen(s[2..], rest); }
    } else {
      SymbolText(s);
    }
  }

  lemma WholeToken(s: string)
    requires s != "" && TokenLength(s) == |s| && !KindOf(s).Word?
    ensures Rewrite(s) == s
  {
    assert s[..|s|] == s && s[|s|..] == "";
  }

  /** An open token swallows all that follows and closes nothing. */
  lemma {:induction false} OpenSwallows(s: string, tag: string, rest: string)
    requires EndsTagged(s, tag) && !LastKind(s).Word? && Quiet(rest)
    ensures Rewrite(s + rest) == Rewrite(s) + rest
    decreases |s|
  {
    TaggedChars(s, tag);
    if TokenLength(s) == |s| {
      OpenToken(s, tag, rest);
      WholeToken(s);
      WholeToken(s + rest);
    } else {
      var n := TokenLength(s);
      TokenBeforeTag(s, tag);
      TailEndsTagged(s, tag, n);
      var text := FirstAppended(s, rest);
      OpenSwallows(s[n..], tag, rest);
      Sequences.Regroup(text, Rewrite(s[n..]), rest);
    }
  }

  // ---- Literals in context --------------------------------------------------------------------------

  lemma {:induction false} DollarTailAt(body: string, rest: string)
    requires Encloses("", body)
    ensures DollarTail(body + "$$" + rest, "$$") == |body| + 2
    decreases |body|
  {
    var t := body + "$$" + rest;
    assert Delimiter("") == "$$";
    if body == "" {
      assert t[..2] == "$$";
    } else {
      assert t[1..] == body[1..] + "$$" + rest;
      assert t[..2] == (body + "$$")[0..][..2];
      forall i | 0 <= i < |body[1..]| ensures !StartsWith((body[1..] + "$$")[i..], "$$") {
        assert (body[1..] + "$$")[i..] == (body + "$$")[i + 1..];
      }
      DollarTailAt(body[1..], rest);
    }
  }

  /** A literal with the empty tag is copied and what follows is rewritten on its own, whatever they are. */
  lemma UntaggedIsCopied(body: string, rest: string)
    requires Encloses("", body)
    ensures LeftAlone(Literal("", body), rest)
  {
    var a := Literal("", body);
    var t := a + rest;
    assert Delimiter("") == "$$";
    assert t[2..] == body + "$$" + rest && Pair(t, '$', '$');
    DollarTailAt(body, rest);
    OpenedText(t);
    assert t[..|a|] == a && t[|a|..] == rest;
  }

  lemma LiteralEndsTagged(tag: string, body: string)
    requires IsTag(tag) && tag != ""
    ensures EndsTagged(Literal(tag, body), tag)
  {
    var a := Literal(tag, body);
    assert a == Delimiter(tag) + body + "$" + (tag + "$");
  }

  /** A call of a mapped name, as it stands on its own. */
  lemma CallIsRenamed(name: string, rest: string)
    requires IsWord(name) && RewriteName(name).Some?
    ensures RenamedAt(name + ("(" + rest), 0) && Rewrite(name + ("(" + rest)) != name + ("(" + rest)
  {
    var s := name + ("(" + rest);
    WordToken(name, "(" + rest);
    assert s[..|name|] == name && s[|name|..] == "(" + rest;
    WordText(s);
    ReplacementIsFixed(name);
    NotUnchanged(s);
  }

  lemma NotUnchanged(s: string)
    requires s != "" && NewText(s) != s[..TokenLength(s)]
    ensures Rewrite(s) != s
  {
    UnchangedIff(s);
    RewriteKeepsCalls(s[TokenLength(s)..]);
    assert Lex(s)[1..] == Lex(s[TokenLength(s)..]);
    assert Renamed(Lex(s), 0);
  }

  lemma SpacedCallIsRenamed(name: string, rest: string)
    requires IsWord(name) && RewriteName(name).Some?
    ensures Rewrite(" " + (name + ("(" + rest))) != " " + (name + ("(" + rest))
  {
    var call := name + ("(" + rest);
    CallIsRenamed(name, rest);
    SymbolText(" " + call);
    assert (" " + call)[1..] == call && (" " + call)[..1] == " ";
    if Rewrite(" " + call) == " " + call { CancelFront(" ", Rewrite(call), call); }
  }

  /** A word at the end takes in the characters that follow, so that no token starts there. */
  lemma {:induction false} WordTakesIn(s: string, rest: string)
    requires s != "" && LastKind(s).Word? && rest != "" && IdentifierContinue(rest[0])
    ensures !RenamedAt(s + rest, |s|)
    decreases |s|
  {
    var n := TokenLength(s);
    if n == |s| {
      LongerWord(s, rest);
    } else {
      AppendKeepsToken(s, rest);
      WordTakesIn(s[n..], rest);
    }
  }

  lemma LongerWord(s: string, rest: string)
    requires s != "" && KindOf(s).Word? && TokenLength(s) == |s| && rest != "" && IdentifierContinue(rest[0])
    ensures TokenLength(s + rest) > |s|
  {
    WordText(s);
    WordText(s + rest);
    var t, m := (s + rest)[1..], WordTail((s + rest)[1..]);
    assert forall i :: 0 <= i < |s| - 1 ==> t[i] == s[1..][i];
    assert t[|s| - 1] == rest[0];
  }

  /** A tagged literal that ends in a word does not stand a called name right behind it. */
  lemma AdjacentCallFails(a: string, name: string, rest: string)
    requires a != "" && LastKind(a).Word? && IsWord(name) && RewriteName(name).Some?
    ensures !LeftAlone(a, name + ("(" + rest))
  {
    var call := name + ("(" + rest);
    var s := a + call;
    CallIsRenamed(name, rest);
    assert call[0] == name[0];
    WordTakesIn(a, call);
    LeftAloneIff(a, call);
    assert s[|a|..] == call && s[0..] == s;
    assert |a| in MarksFrom(s, |a|) && |a| !in MarksFrom(s, 0);
  }

  lemma OpenCallFails(a: string, tag: string, name: string, rest: string)
    requires EndsTagged(a, tag) && !LastKind(a).Word? && Rewrite(a) == a
    requires MappedCall(name, rest)
    ensures !LeftAlone(a, " " + (name + ("(" + rest)))
  {
    var call := " " + (name + ("(" + rest));
    OpenSwallows(a, tag, call);
    SpacedCallIsRenamed(name, rest);
    if a + call == a + Rewrite(call) { CancelFront(a, call, Rewrite(call)); }
  }

  lemma {:induction false} Matches(identifier: string, k: nat, j: nat)
    requires k <= j < MAPPED && EqualIgnoringCase(identifier, Mapping(j).0)
    ensures RewriteNameFrom(identifier, k).Some?
    decreases j - k
  {
    if k < j { Matches(identifier, k + 1, j); }
  }

  /** A mapped name and what may follow it. */
  ghost predicate MappedCall(name: string, rest: string) {
    IsWord(name) && RewriteName(name).Some? && Quiet(" " + (name + ("(" + rest)))
  }

  lemma SridCall(name: string, rest: string)
    requires name == "ST_SRID" && rest == "g)"
    ensures MappedCall(name, rest)
  {
    Matches(name, 0, 11);
  }

  lemma SomeMappedCall() returns (name: string, rest: string)
    ensures MappedCall(name, rest)
  {
    name :| name == "ST_SRID";
    rest :| rest == "g)";
    SridCall(name, rest);
  }

  /**
   A dollar-quoted literal is copied, and what follows it rewritten on its own, in every context exactly when its
   tag is empty.
   */
  lemma AlwaysLeftAloneIff(tag: string, body: string)
    requires IsTag(tag) && Encloses(tag, body)
    ensures (forall rest :: LeftAlone(Literal(tag, body), rest)) <==> tag == ""
  {
    if tag == "" {
      forall rest ensures LeftAlone(Literal(tag, body), rest) { UntaggedIsCopied(body, rest); }
    } else {
      var rest := FailingRest(tag, body, Literal(tag, body));
    }
  }

  lemma FailingRest(tag: string, body: string, a: string) returns (rest: string)
    requires IsTag(tag) && tag != "" && a == Literal(tag, body)
    ensures !LeftAlone(a, rest)
  {
    var name, tail := SomeMappedCall();
    LiteralEndsTagged(tag, body);
    if Rewrite(a) != a {
      rest := "";
      EmptyRest(a);
    } else if LastKind(a).Word? {
      rest := name + ("(" + tail);
      AdjacentCallFails(a, name, tail);
    } else {
      rest := " " + (name + ("(" + tail));
      OpenCallFails(a, tag, name, tail);
    }
  }

  lemma EmptyRest(a: string)
    ensures LeftAlone(a, "") <==> Rewrite(a) == a
  {
    assert a + "" == a;
  }

  /** No token of the text is a mapped, called word. */
  ghost predicate NothingRenamed(a: string) {
    forall i :: 0 <= i < |Lex(a)| ==> !Renamed(Lex(a), i)
  }

  /** In front of something separate, a tagged literal that ends on a token boundary is judged by itself alone. */
  lemma ClosedLeftAloneIff(tag: string, body: string, rest: string)
    requires IsTag(tag) && tag != "" && LastKind(Literal(tag, body)).Word? && Separate(rest)
    ensures LeftAlone(Literal(tag, body), rest) <==> NothingRenamed(Literal(tag, body))
  {
    var a := Literal(tag, body);
    LiteralEndsTagged(tag, body);
    TaggedChars(a, tag);
    SplitAfterWord(a, rest);
    NothingRenamedIff(a);
    BackIff(Rewrite(a), a, Rewrite(rest));
  }

  lemma NothingRenamedIff(a: string)
    ensures NothingRenamed(a) <==> Rewrite(a) == a
  {
    UnchangedIff(a);
  }

  lemma BackIff(x: string, y: string, b: string)
    ensures x + b == y + b <==> x == y
  {
    if x + b == y + b { assert |x| == |y| && (x + b)[..|x|] == x && (y + b)[..|y|] == y; }
  }

  /**
   In front of anything that is not part of a word, a tagged literal is left alone exactly when no mapped, called
   word stands in it and it ends on a token boundary, as the scanner sees it.
   */
  lemma SeparatedLeftAloneIff(tag: string, body: string)
    requires IsTag(tag) && tag != ""
    ensures (forall rest :: Separate(rest) ==> LeftAlone(Literal(tag, body), rest))
      <==> LastKind(Literal(tag, body)).Word? && NothingRenamed(Literal(tag, body))
  {
    var a := Literal(tag, body);
    LiteralEndsTagged(tag, body);
    if LastKind(a).Word? {
      assert Separate("");
      forall rest | Separate(rest) ensures LeftAlone(a, rest) <==> NothingRenamed(a) {
        ClosedLeftAloneIff(tag, body, rest);
      }
    } else {
      var rest := FailingSeparateRest(tag, a);
    }
  }

  lemma FailingSeparateRest(tag: string, a: string) returns (rest: string)
    requires EndsTagged(a, tag) && !LastKind(a).Word?
    ensures Separate(rest) && !LeftAlone(a, rest)
  {
    if Rewrite(a) != a {
      rest := "";
      EmptyRest(a);
    } else {
      var name, tail := SomeMappedCall();
      rest := " " + (name + ("(" + tail));
      OpenCallFails(a, tag, name, tail);
    }
  }

  // ---- Inputs ---------------------------------------------------------------------------------------

  lemma RewriteCons(first: string, rest: string)
    requires first != "" && TokenLength(first + rest) == |first|
    ensures Rewrite(first + rest) == NewText(first + rest) + Rewrite(rest)
  {
    assert (first + rest)[|first|..] == rest;
  }

  /** The two tokens a tagged literal starts with, when its body does not go on with the word. */
  lemma TaggedStart(tag: string, x: string)
    requires IsTag(tag) && tag != "" && Separate(x)
    ensures Rewrite("$" + ((tag + "$") + x)) == "$" + ((tag + "$") + Rewrite(x))
    ensures x != "" ==> LastKind("$" + ((tag + "$") + x)) == LastKind(x)
  {
    var word := tag + "$";
    var s := "$" + (word + x);
    assert s[1] == tag[0] && s[1..] == word + x && s[..1] == "$";
    SymbolText(s);
    RewriteCons("$", word + x);
    assert forall i :: 0 <= i < |tag| ==> word[i] == tag[i];
    WordToken(word, x);
    assert (word + x)[..|word|] == word && (word + x)[|word|..] == x;
    DollarUnmapped(word);
    WordText(word + x);
    RewriteCons(word, x);
  }

  /** Whatever the tag, a mapped call in the body of `$tag$ name(rest$tag$` is renamed. */
  lemma TaggedCallIsChanged(tag: string, name: string, rest: string)
    requires IsTag(tag) && tag != "" && IsWord(name) && RewriteName(name).Some?
    ensures var a := Literal(tag, " " + (name + ("(" + rest))); Rewrite(a) != a
  {
    var a := Literal(tag, " " + (name + ("(" + rest)));
    var body := " " + (name + ("(" + (rest + Delimiter(tag))));
    assert a == "$" + ((tag + "$") + body);
    TaggedStart(tag, body);
    SpacedCallIsRenamed(name, rest + Delimiter(tag));
    if Rewrite(a) == a {
      CancelFront("$", (tag + "$") + Rewrite(body), (tag + "$") + body);
      CancelFront(tag + "$", Rewrite(body), body);
    }
  }

  /** `$t$ ST_SRID(g)$t$` is a literal, and the rewriter changes what is in it. */
  lemma TaggedLiteralIsChanged(tag: string, name: string, rest: string)
    requires tag == "t" && name == "ST_SRID" && rest == "g)"
    ensures var a := Literal(tag, " " + (name + ("(" + rest))); Rewrite(a) != a
  {
    SridCall(name, rest);
    TaggedCallIsChanged(tag, name, rest);
  }

  /** Whatever the tag, an apostrophe in the body hides a call after the literal: it is not renamed. */
  lemma CallIsSwallowed(tag: string, name: string, rest: string)
    requires IsTag(tag) && tag != "" && MappedCall(name, rest)
    ensures var a, call := Literal(tag, "'"), " " + (name + ("(" + rest));
      Rewrite(a + call) == a + call && Rewrite(call) != call && !LeftAlone(a, call)
  {
    var a, call, open := Literal(tag, "'"), " " + (name + ("(" + rest)), "'" + Delimiter(tag);
    assert a == "$" + ((tag + "$") + open);
    assert open[1..] == Delimiter(tag);
    QuotedQuiet(open[1..], '\'');
    QuotedText(open);
    WholeToken(open);
    TaggedStart(tag, open);
    LiteralEndsTagged(tag, "'");
    OpenSwallows(a, tag, call);
    SpacedCallIsRenamed(name, rest);
    OpenCallFails(a, tag, name, rest);
  }

  /** `$t$'$t$ ST_SRID(g)` comes back as it is, with the call not renamed. */
  lemma CallAfterLiteralIsSwallowed(tag: string, name: string, rest: string)
    requires tag == "t" && name == "ST_SRID" && rest == "g)"
    ensures var a, call := Literal(tag, "'"), " " + (name + ("(" + rest));
      Rewrite(a + call) == a + call && Rewrite(call) != call
  {
    SridCall(name, rest);
    CallIsSwallowed(tag, name, rest);
  }
}
