/**
 The PostGIS spelling rewriter: a hand-written scanner that copies literals, quoted names, comments and
 `$$` bodies and renames mapped function names that are followed by an opening parenthesis.

 SQL text is a sequence of characters. The source works on UTF-8 bytes, but every byte it tests is ASCII
 and everything else is copied, so positions in characters and in bytes tell the same story.
 */
module SpatialCompat {
  import opened Wrappers
  import opened Ascii

  // ---- Characters -------------------------------------------------------------------------------

  predicate Letter(c: char) {
    'a' <= c <= 'z' || 'A' <= c <= 'Z'
  }

  predicate IdentifierStart(c: char) {
    Letter(c) || c == '_'
  }

  predicate IdentifierContinue(c: char) {
    Letter(c) || '0' <= c <= '9' || c == '_' || c == '$'
  }

  predicate Whitespace(c: char) {
    c == ' ' || c == '\t' || c == '\n' || c == '\r' || c == '\U{000C}'
  }

  predicate StartsWith(s: string, prefix: string) {
    |prefix| <= |s| && s[..|prefix|] == prefix
  }

  predicate Pair(s: string, a: char, b: char) {
    |s| >= 2 && s[0] == a && s[1] == b
  }

  // ---- Mapped names -----------------------------------------------------------------------------

  predicate EqualIgnoringCase(a: string, b: string) {
    |a| == |b| && forall i :: 0 <= i < |a| ==> FoldChar(a[i]) == FoldChar(b[i])
  }

  const MAPPED := 17

  /** The mapped spellings in the order they are tried, each with its replacement. */
  function Mapping(k: nat): (string, string)
    requires k < MAPPED
  {
    match k
    case 0 => ("postgis_lib_version", "quackgis_postgis_lib_version")
    case 1 => ("postgis_version", "quackgis_postgis_version")
    case 2 => ("st_geomfromewkt", "quackgis_st_geomfromewkt")
    case 3 => ("st_makepoint", "ST_Point")
    case 4 => ("st_asbinary", "quackgis_st_asbinary")
    case 5 => ("st_ashexewkb", "quackgis_st_ashexewkb")
    case 6 => ("geometrytype", "quackgis_geometry_type")
    case 7 => ("st_geometrytype", "quackgis_st_geometry_type")
    case 8 => ("st_numpoints", "ST_NPoints")
    case 9 => ("st_curvetoline", "quackgis_st_curvetoline")
    case 10 => ("st_hasarc", "quackgis_st_hasarc")
    case 11 => ("st_srid", "quackgis_st_srid")
    case 12 => ("st_zmflag", "quackgis_st_zmflag")
    case 13 => ("st_extent", "quackgis_st_extent")
    case 14 => ("st_3dextent", "quackgis_st_3dextent")
    case 15 => ("postgis_geos_version", "quackgis_postgis_geos_version")
    case _ => ("postgis_proj_version", "quackgis_postgis_proj_version")
  }

  function RewriteNameFrom(identifier: string, k: nat): Option<string>
    requires k <= MAPPED
    decreases MAPPED - k, |identifier|
  {
    if k == MAPPED then None
    else if EqualIgnoringCase(identifier, Mapping(k).0) then Some(Mapping(k).1)
    else RewriteNameFrom(identifier, k + 1)
  }

  function RewriteName(identifier: string): Option<string> {
    RewriteNameFrom(identifier, 0)
  }

  // ---- Token lengths ----------------------------------------------------------------------------

  /** Characters of `s` up to and including the closing quote; a doubled quote does not close. */
  function QuotedTail(s: string, quote: char): (n: nat)
    ensures n <= |s|
  {
    if s == "" then 0
    else if s[0] == quote then
      if |s| > 1 && s[1] == quote then 2 + QuotedTail(s[2..], quote) else 1
    else 1 + QuotedTail(s[1..], quote)
  }

  function LineTail(s: string): (n: nat)
    ensures n <= |s|
  {
    if s == "" || s[0] == '\n' then 0 else 1 + LineTail(s[1..])
  }

  /** Characters of `s` until `depth` open comments are closed. */
  function BlockTail(s: string, depth: nat): (n: nat)
    ensures n <= |s|
    decreases |s|
  {
    if depth == 0 || s == "" then 0
    else if Pair(s, '/', '*') then 2 + BlockTail(s[2..], depth + 1)
    else if Pair(s, '*', '/') then 2 + BlockTail(s[2..], depth - 1)
    else 1 + BlockTail(s[1..], depth)
  }

  function WordTail(s: string): (n: nat)
    ensures n <= |s|
    ensures forall i :: 0 <= i < n ==> IdentifierContinue(s[i])
    ensures n < |s| ==> !IdentifierContinue(s[n])
  {
    if s != "" && IdentifierContinue(s[0]) then 1 + WordTail(s[1..]) else 0
  }

  /** Length of the dollar delimiter `s` starts with, as the scanner sees it. */
  function DollarDelimiter(s: string): (r: Option<nat>)
    requires s != "" && s[0] == '$'
    ensures r.Some? ==> r.value <= |s|
  {
    if |s| > 1 && s[1] == '$' then Some(2)
    else if |s| > 1 && IdentifierStart(s[1]) then
      var n := 2 + WordTail(s[2..]);
      if n < |s| && s[n] == '$' then Some(n + 1) else None
    else None
  }

  /** Characters of `s` up to and including the first occurrence of the delimiter. */
  function DollarTail(s: string, delimiter: string): (n: nat)
    requires delimiter != ""
    ensures n <= |s|
  {
    if s == "" then 0
    else if StartsWith(s, delimiter) then |delimiter|
    else 1 + DollarTail(s[1..], delimiter)
  }

  // ---- Tokens -----------------------------------------------------------------------------------

  datatype Kind = SingleQuoted | DoubleQuoted | LineComment | BlockComment | DollarQuoted | Word | Symbol

  datatype Token = Token(kind: Kind, text: string)

  function KindOf(s: string): Kind
    requires s != ""
  {
    if s[0] == '\'' then SingleQuoted
    else if s[0] == '"' then DoubleQuoted
    else if Pair(s, '-', '-') then LineComment
    else if Pair(s, '/', '*') then BlockComment
    else if s[0] == '$' && DollarDelimiter(s).Some? then DollarQuoted
    else if IdentifierStart(s[0]) then Word
    else Symbol
  }

  /** Length of the token `s` starts with. */
  function TokenLength(s: string): (n: nat)
    requires s != ""
    ensures 0 < n <= |s|
  {
    match KindOf(s)
    case SingleQuoted => 1 + QuotedTail(s[1..], '\'')
    case DoubleQuoted => 1 + QuotedTail(s[1..], '"')
    case LineComment => 2 + LineTail(s[2..])
    case BlockComment => 2 + BlockTail(s[2..], 1)
    case DollarQuoted =>
      var d := DollarDelimiter(s).value;
      d + DollarTail(s[d..], s[..d])
    case Word => 1 + WordTail(s[1..])
    case Symbol => 1
  }

  function Lex(s: string): seq<Token> {
    if s == "" then []
    else [Token(KindOf(s), s[..TokenLength(s)])] + Lex(s[TokenLength(s)..])
  }

  /** The next character that is not white space is an opening parenthesis. */
  predicate CallFollows(s: string) {
    s != "" && if Whitespace(s[0]) then CallFollows(s[1..]) else s[0] == '('
  }

  /** What the scanner appends for the token `s` starts with. */
  function NewText(s: string): string
    requires s != ""
  {
    var n := TokenLength(s);
    if KindOf(s).Word? && CallFollows(s[n..]) && RewriteName(s[..n]).Some? then RewriteName(s[..n]).value
    else s[..n]
  }

  function Rewrite(s: string): string {
    if s == "" then "" else NewText(s) + Rewrite(s[TokenLength(s)..])
  }

  // ---- The same on tokens -------------------------------------------------------------------------

  predicate CallFollowsTokens(tokens: seq<Token>) {
    && tokens != []
    && tokens[0].kind.Symbol? && |tokens[0].text| == 1
    && if Whitespace(tokens[0].text[0]) then CallFollowsTokens(tokens[1..]) else tokens[0].text[0] == '('
  }

  function RenameFirst(tokens: seq<Token>): Token
    requires tokens != []
  {
    var t := tokens[0];
    if t.kind.Word? && CallFollowsTokens(tokens[1..]) && RewriteName(t.text).Some?
    then t.(text := RewriteName(t.text).value) else t
  }

  /** The specification: unquoted words that are mapped and called are renamed, nothing else changes. */
  function Rename(tokens: seq<Token>): seq<Token> {
    if tokens == [] then [] else [RenameFirst(tokens)] + Rename(tokens[1..])
  }

  function Text(tokens: seq<Token>): string {
    if tokens == [] then "" else tokens[0].text + Text(tokens[1..])
  }

  // ---- Replacements are words, and no replacement is itself mapped --------------------------------

  predicate IsWord(s: string) {
    s != "" && IdentifierStart(s[0]) && forall i :: 0 <= i < |s| ==> IdentifierContinue(s[i])
  }

  lemma ReplacementIsWord0(k: nat) requires 0 <= k < 3 ensures IsWord(Mapping(k).1) {}
  lemma ReplacementIsWord1(k: nat) requires 3 <= k < 6 ensures IsWord(Mapping(k).1) {}
  lemma ReplacementIsWord2(k: nat) requires 6 <= k < 9 ensures IsWord(Mapping(k).1) {}
  lemma ReplacementIsWord3(k: nat) requires 9 <= k < 12 ensures IsWord(Mapping(k).1) {}
  lemma ReplacementIsWord4(k: nat) requires 12 <= k < 15 ensures IsWord(Mapping(k).1) {}
  lemma ReplacementIsWord5(k: nat) requires 15 <= k < 17 ensures IsWord(Mapping(k).1) {}

  /** No mapped name looks like a replacement: it starts with another letter, and has another length than the rest. */
  predicate LooksReplaced(s: string) {
    |s| > 0 && (FoldChar(s[0]) == 'q' || |s| == 8 || |s| == 10)
  }

  lemma ReplacementLooks(k: nat)
    requires k < MAPPED
    ensures LooksReplaced(Mapping(k).1)
  {
  }

  lemma MappedLooks(k: nat)
    requires k < MAPPED
    ensures |Mapping(k).0| > 0 && !LooksReplaced(Mapping(k).0)
  {
  }

  lemma ReplacementUnmapped(k: nat, j: nat)
    requires k < MAPPED && j < MAPPED
    ensures !EqualIgnoringCase(Mapping(k).1, Mapping(j).0)
  {
    ReplacementLooks(k);
    MappedLooks(j);
    LooksDiffer(Mapping(k).1, Mapping(j).0);
  }

  lemma LooksDiffer(a: string, b: string)
    requires LooksReplaced(a) && |b| > 0 && !LooksReplaced(b)
    ensures !EqualIgnoringCase(a, b)
  {
  }

  lemma {:induction false} RewriteNameFound(identifier: string, k: nat)
    requires k <= MAPPED
    ensures RewriteNameFrom(identifier, k).Some? ==>
      IsWord(RewriteNameFrom(identifier, k).value)
      && forall j :: 0 <= j < MAPPED ==> !EqualIgnoringCase(RewriteNameFrom(identifier, k).value, Mapping(j).0)
    decreases MAPPED - k, |identifier|
  {
    if k < MAPPED {
      if EqualIgnoringCase(identifier, Mapping(k).0) {
        if k < 3 { ReplacementIsWord0(k); }
        else if k < 6 { ReplacementIsWord1(k); }
        else if k < 9 { ReplacementIsWord2(k); }
        else if k < 12 { ReplacementIsWord3(k); }
        else if k < 15 { ReplacementIsWord4(k); }
        else { ReplacementIsWord5(k); }
        forall j | 0 <= j < MAPPED ensures !EqualIgnoringCase(Mapping(k).1, Mapping(j).0) { ReplacementUnmapped(k, j); }
      } else {
        RewriteNameFound(identifier, k + 1);
      }
    }
  }

  lemma {:induction false} UnmappedStays(identifier: string, k: nat)
    requires k <= MAPPED && forall j :: 0 <= j < MAPPED ==> !EqualIgnoringCase(identifier, Mapping(j).0)
    ensures RewriteNameFrom(identifier, k).None?
    decreases MAPPED - k, |identifier|
  {
    if k < MAPPED { UnmappedStays(identifier, k + 1); }
  }

  /** A replacement is one unquoted word that the rewriter leaves alone. */
  lemma ReplacementIsFixed(identifier: string)
    requires RewriteName(identifier).Some?
    ensures IsWord(RewriteName(identifier).value) && RewriteName(RewriteName(identifier).value).None?
  {
    RewriteNameFound(identifier, 0);
    UnmappedStays(RewriteName(identifier).value, 0);
  }

  // ---- A token does not depend on the text after it, beyond the kind of its first character ----------

  /** The scanner cannot tell the two texts apart from in front: same first character, or both a word. */
  predicate SameHead(a: string, b: string) {
    && (a == "" <==> b == "")
    && (a != "" ==> a[0] == b[0] || (IdentifierStart(a[0]) && IdentifierStart(b[0])))
  }

  lemma {:induction false} QuotedStable(s: string, quote: char, rest: string)
    requires !IdentifierStart(quote) && SameHead(s[QuotedTail(s, quote)..], rest)
    ensures QuotedTail(s[..QuotedTail(s, quote)] + rest, quote) == QuotedTail(s, quote)
    decreases |s|
  {
    var n := QuotedTail(s, quote);
    var s' := s[..n] + rest;
    if s != "" {
      if s[0] == quote {
        if |s| > 1 && s[1] == quote {
          assert s[2..][n - 2..] == s[n..] && s'[2..] == s[2..][..n - 2] + rest;
          QuotedStable(s[2..], quote, rest);
        }
      } else {
        assert s[1..][n - 1..] == s[n..] && s'[1..] == s[1..][..n - 1] + rest;
        QuotedStable(s[1..], quote, rest);
      }
    }
  }

  lemma {:induction false} LineStable(s: string, rest: string)
    requires SameHead(s[LineTail(s)..], rest)
    ensures LineTail(s[..LineTail(s)] + rest) == LineTail(s)
    decreases |s|
  {
    var n := LineTail(s);
    if n > 0 {
      assert s[1..][n - 1..] == s[n..] && (s[..n] + rest)[1..] == s[1..][..n - 1] + rest;
      LineStable(s[1..], rest);
    }
  }

  lemma {:induction false} BlockClosed(s: string, depth: nat)
    requires BlockTail(s, depth) < |s|
    ensures BlockTail(s, depth) >= 2 * depth
    decreases |s|
  {
    if depth > 0 && s != "" {
      if Pair(s, '/', '*') { BlockClosed(s[2..], depth + 1); }
      else if Pair(s, '*', '/') { BlockClosed(s[2..], depth - 1); }
      else { BlockClosed(s[1..], depth); }
    }
  }

  lemma DropBoth(s: string, n: nat, rest: string, d: nat)
    requires d <= n <= |s|
    ensures s[d..][n - d..] == s[n..] && (s[..n] + rest)[d..] == s[d..][..n - d] + rest
  {
  }

  lemma {:induction false} BlockStable(s: string, depth: nat, rest: string)
    requires SameHead(s[BlockTail(s, depth)..], rest)
    ensures BlockTail(s[..BlockTail(s, depth)] + rest, depth) == BlockTail(s, depth)
    decreases |s|
  {
    var n := BlockTail(s, depth);
    var s' := s[..n] + rest;
    if n == |s| {
      assert s' == s;
    } else if depth > 0 && s != "" {
      BlockClosed(s, depth);
      assert s'[0] == s[0] && s'[1] == s[1];
      var d, deeper := BlockNext(s), BlockDepth(s, depth);
      DropBoth(s, n, rest, d);
      BlockStable(s[d..], deeper, rest);
    }
  }

  /** How far one round in a comment goes, and at what depth it leaves. */
  function BlockNext(s: string): nat {
    if Pair(s, '/', '*') || Pair(s, '*', '/') then 2 else 1
  }

  function BlockDepth(s: string, depth: nat): nat
    requires depth > 0
  {
    if Pair(s, '/', '*') then depth + 1 else if Pair(s, '*', '/') then depth - 1 else depth
  }

  lemma {:induction false} DollarStable(s: string, delimiter: string, rest: string)
    requires delimiter != "" && SameHead(s[DollarTail(s, delimiter)..], rest)
    ensures DollarTail(s[..DollarTail(s, delimiter)] + rest, delimiter) == DollarTail(s, delimiter)
    decreases |s|
  {
    var n := DollarTail(s, delimiter);
    var s' := s[..n] + rest;
    if n == |s| {
      assert s' == s;
    } else {
      DollarFound(s, delimiter);
      assert s'[..|delimiter|] == s[..|delimiter|];
      if !StartsWith(s, delimiter) {
        assert s[1..][n - 1..] == s[n..] && s'[1..] == s[1..][..n - 1] + rest;
        DollarStable(s[1..], delimiter, rest);
      }
    }
  }

  lemma {:induction false} DollarFound(s: string, delimiter: string)
    requires delimiter != "" && DollarTail(s, delimiter) < |s|
    ensures DollarTail(s, delimiter) >= |delimiter|
    decreases |s|
  {
    if !StartsWith(s, delimiter) { DollarFound(s[1..], delimiter); }
  }

  lemma {:induction false} WordLength(word: string, rest: string)
    requires forall i :: 0 <= i < |word| ==> IdentifierContinue(word[i])
    requires rest != "" ==> !IdentifierContinue(rest[0])
    ensures WordTail(word + rest) == |word|
    decreases |word|
  {
    if word == "" {
      assert word + rest == rest;
    } else {
      assert (word + rest)[1..] == word[1..] + rest;
      WordLength(word[1..], rest);
    }
  }

  /** Only `$$` is ever taken for a dollar delimiter: the tag scan swallows the dollar that would close a tag. */
  lemma OnlyEmptyTags(s: string)
    requires s != "" && s[0] == '$'
    ensures DollarDelimiter(s) == if |s| > 1 && s[1] == '$' then Some(2) else None
  {
  }

  /** A word in place of a word: same kind, and the token is exactly the new word. */
  lemma WordToken(word: string, rest: string)
    requires IsWord(word) && (rest != "" ==> !IdentifierContinue(rest[0]))
    ensures KindOf(word + rest) == Word && TokenLength(word + rest) == |word|
  {
    assert (word + rest)[1..] == word[1..] + rest;
    WordLength(word[1..], rest);
  }

  lemma QuotedTokenStable(s: string, rest: string)
    requires s != "" && (s[0] == '\'' || s[0] == '"') && SameHead(s[TokenLength(s)..], rest)
    ensures TokenLength(s[..TokenLength(s)] + rest) == TokenLength(s)
  {
    var tail := s[1..];
    var m := QuotedTail(tail, s[0]);
    assert TokenLength(s) == 1 + m;
    var s' := s[..1 + m] + rest;
    assert tail[m..] == s[1 + m..];
    assert s'[1..] == tail[..m] + rest;
    assert s'[0] == s[0];
    QuotedStable(tail, s[0], rest);
  }

  /** A token that opens with two characters which alone decide its kind. */
  predicate Opens(s: string) {
    Pair(s, '-', '-') || Pair(s, '/', '*') || Pair(s, '$', '$')
  }

  function OpenedTail(s: string): (n: nat)
    requires Opens(s)
    ensures n <= |s| - 2
  {
    if Pair(s, '-', '-') then LineTail(s[2..])
    else if Pair(s, '/', '*') then BlockTail(s[2..], 1)
    else DollarTail(s[2..], "$$")
  }

  lemma OpenedToken(s: string)
    requires s != ""
    ensures Opens(s) <==> KindOf(s).LineComment? || KindOf(s).BlockComment? || KindOf(s).DollarQuoted?
    ensures Opens(s) ==> TokenLength(s) == 2 + OpenedTail(s)
    ensures Opens(s) ==> KindOf(s) == if s[0] == '-' then LineComment else if s[0] == '/' then BlockComment
      else DollarQuoted
  {
    if s[0] == '$' {
      OnlyEmptyTags(s);
      assert |s| > 1 ==> s[..2] == [s[0], s[1]];
    }
  }

  lemma OpenedStable(s: string, rest: string)
    requires Opens(s) && SameHead(s[2 + OpenedTail(s)..], rest)
    ensures var s' := s[..2 + OpenedTail(s)] + rest; Opens(s') && s'[0] == s[0] && OpenedTail(s') == OpenedTail(s)
  {
    var m, tail := OpenedTail(s), s[2..];
    var s' := s[..2 + m] + rest;
    assert s'[..2] == s[..2];
    assert tail[m..] == s[2 + m..];
    assert s'[2..] == tail[..m] + rest;
    if Pair(s, '-', '-') { LineStable(tail, rest); }
    else if Pair(s, '/', '*') { BlockStable(tail, 1, rest); }
    else { DollarStable(tail, "$$", rest); }
  }

  lemma LongTokenStable(s: string, rest: string)
    requires Opens(s) && SameHead(s[TokenLength(s)..], rest)
    ensures var s' := s[..TokenLength(s)] + rest; KindOf(s') == KindOf(s) && TokenLength(s') == TokenLength(s)
  {
    OpenedToken(s);
    OpenedStable(s, rest);
    OpenedToken(s[..TokenLength(s)] + rest);
  }

  lemma SymbolStable(s: string, rest: string)
    requires s != "" && KindOf(s).Symbol? && SameHead(s[1..], rest)
    ensures KindOf(s[..1] + rest).Symbol?
  {
    var s' := s[..1] + rest;
    if s[0] == '$' { OnlyEmptyTags(s); OnlyEmptyTags(s'); }
    assert |s| > 1 ==> s[1..][0] == s[1] && s[..2] == [s[0], s[1]];
    assert |s'| > 1 ==> rest[0] == s'[1] && s'[..2] == [s'[0], s'[1]];
  }

  /** Replacing what follows a token by something with the same head leaves the token as it is. */
  lemma TokenStable(s: string, rest: string)
    requires s != "" && SameHead(s[TokenLength(s)..], rest)
    ensures var s' := s[..TokenLength(s)] + rest; KindOf(s') == KindOf(s) && TokenLength(s') == TokenLength(s)
  {
    match KindOf(s) {
      case SingleQuoted => QuotedTokenStable(s, rest);
      case DoubleQuoted => QuotedTokenStable(s, rest);
      case Symbol => SymbolStable(s, rest);
      case Word =>
        var n := TokenLength(s);
        assert forall i :: 0 <= i < n - 1 ==> s[..n][i + 1] == s[1..][i];
        assert s[1..][n - 1..] == s[n..];
        WordToken(s[..n], rest);
      case _ =>
        OpenedToken(s);
        LongTokenStable(s, rest);
    }
  }

  // ---- The rewriter ---------------------------------------------------------------------------------

  lemma RewriteHead(s: string)
    ensures SameHead(s, Rewrite(s))
  {
    if s != "" {
      var n := TokenLength(s);
      if NewText(s) != s[..n] { ReplacementIsFixed(s[..n]); }
      assert Rewrite(s)[0] == NewText(s)[0];
    }
  }

  lemma {:induction false} RewriteKeepsCalls(s: string)
    ensures CallFollows(Rewrite(s)) <==> CallFollows(s)
    ensures CallFollowsTokens(Lex(s)) <==> CallFollows(s)
    decreases |s|
  {
    if s != "" {
      RewriteHead(s);
      if Whitespace(s[0]) || s[0] == '(' {
        assert KindOf(s) == Symbol && NewText(s) == [s[0]] && s[..1] == [s[0]];
        assert Rewrite(s)[1..] == Rewrite(s[1..]);
        assert Lex(s)[1..] == Lex(s[1..]);
        RewriteKeepsCalls(s[1..]);
      } else {
        assert Lex(s)[0].text[0] == s[0];
      }
    }
  }

  /** The first token of the output is the first token of the input, renamed if it has to be. */
  lemma FirstToken(s: string)
    requires s != ""
    ensures Rewrite(s) != "" && KindOf(Rewrite(s)) == KindOf(s)
    ensures TokenLength(Rewrite(s)) == |NewText(s)|
    ensures Rewrite(s)[..|NewText(s)|] == NewText(s) && Rewrite(s)[|NewText(s)|..] == Rewrite(s[TokenLength(s)..])
  {
    if NewText(s) == s[..TokenLength(s)] { FirstTokenKept(s); } else { FirstTokenRenamed(s); }
  }

  lemma FirstTokenKept(s: string)
    requires s != "" && NewText(s) == s[..TokenLength(s)]
    ensures Rewrite(s) != "" && KindOf(Rewrite(s)) == KindOf(s)
    ensures TokenLength(Rewrite(s)) == TokenLength(s)
  {
    var n := TokenLength(s);
    RewriteHead(s[n..]);
    TokenStable(s, Rewrite(s[n..]));
  }

  lemma FirstTokenRenamed(s: string)
    requires s != "" && NewText(s) != s[..TokenLength(s)]
    ensures Rewrite(s) != "" && KindOf(Rewrite(s)) == KindOf(s)
    ensures TokenLength(Rewrite(s)) == |NewText(s)|
  {
    var n := TokenLength(s);
    RewriteHead(s[n..]);
    ReplacementIsFixed(s[..n]);
    assert s[1..][n - 1..] == s[n..];
    WordToken(NewText(s), Rewrite(s[n..]));
  }

  /**
   For every SQL text, the tokens of the output are the tokens of the input with exactly the mapped,
   unquoted, called names renamed.
   */
  lemma {:induction false} RewriteRenamesTokens(s: string)
    ensures Lex(Rewrite(s)) == Rename(Lex(s))
    decreases |s|
  {
    if s != "" {
      var n := TokenLength(s);
      FirstToken(s);
      RewriteRenamesTokens(s[n..]);
      RewriteKeepsCalls(s[n..]);
      assert Lex(s)[1..] == Lex(s[n..]);
      assert Token(KindOf(s), NewText(s)) == RenameFirst(Lex(s));
    }
  }

  /** Rewriting twice is rewriting once. */
  lemma {:induction false} RewriteIsIdempotent(s: string)
    ensures Rewrite(Rewrite(s)) == Rewrite(s)
    decreases |s|
  {
    if s != "" {
      var n := TokenLength(s);
      FirstToken(s);
      RewriteIsIdempotent(s[n..]);
      RewriteKeepsCalls(s[n..]);
      if NewText(s) != s[..n] { ReplacementIsFixed(s[..n]); }
      assert NewText(Rewrite(s)) == NewText(s);
    }
  }

  /** The tokens are the whole text, in order. */
  lemma {:induction false} LexIsLossless(s: string)
    ensures Text(Lex(s)) == s
    decreases |s|
  {
    if s != "" {
      var n := TokenLength(s);
      LexIsLossless(s[n..]);
      assert Lex(s)[1..] == Lex(s[n..]);
      assert s == s[..n] + s[n..];
    }
  }

  /** Token by token: everything that is not a called, mapped word is copied. */
  lemma {:induction false} RenameTouchesCallsOnly(tokens: seq<Token>, i: nat)
    requires i < |tokens|
    ensures |Rename(tokens)| == |tokens| && Rename(tokens)[i].kind == tokens[i].kind
    ensures Rename(tokens)[i].text ==
      if tokens[i].kind.Word? && CallFollowsTokens(tokens[i + 1..]) && RewriteName(tokens[i].text).Some?
      then RewriteName(tokens[i].text).value else tokens[i].text
    decreases |tokens|
  {
    RenameLength(tokens);
    if i > 0 {
      RenameTouchesCallsOnly(tokens[1..], i - 1);
      assert tokens[1..][i..] == tokens[i + 1..];
    }
  }

  lemma RenameLength(tokens: seq<Token>)
    ensures |Rename(tokens)| == |tokens|
  {
  }

  // ---- The scanner itself ---------------------------------------------------------------------------

  method CopyQuoted(sql: string, output: string, index: nat, quote: char) returns (out: string, next: nat)
    requires index < |sql|
    ensures next == index + 1 + QuotedTail(sql[index + 1..], quote)
    ensures out == output + sql[index..next]
  {
    next := index + 1;
    while next < |sql|
      invariant index < next <= |sql|
      invariant index + 1 + QuotedTail(sql[index + 1..], quote) == next + QuotedTail(sql[next..], quote)
    {
      assert sql[next..][1..] == sql[next + 1..];
      if sql[next] == quote {
        next := next + 1;
        if next < |sql| && sql[next] == quote {
          assert sql[next - 1..][2..] == sql[next + 1..];
          next := next + 1;
          continue;
        }
        out := output + sql[index..next];
        return;
      }
      next := next + 1;
    }
    out := output + sql[index..next];
  }

  method CopyLineComment(sql: string, output: string, index: nat) returns (out: string, next: nat)
    requires index + 2 <= |sql|
    ensures next == index + 2 + LineTail(sql[index + 2..])
    ensures out == output + sql[index..next]
  {
    next := index + 2;
    while next < |sql| && sql[next] != '\n'
      invariant index + 2 <= next <= |sql|
      invariant index + 2 + LineTail(sql[index + 2..]) == next + LineTail(sql[next..])
    {
      assert sql[next..][1..] == sql[next + 1..];
      next := next + 1;
    }
    out := output + sql[index..next];
  }

  /** From here, at this depth, the comment ends at `goal`. */
  ghost predicate BlockEnds(sql: string, next: nat, depth: nat, goal: nat) {
    next <= |sql| && next + BlockTail(sql[next..], depth) == goal
  }

  /** One round of the loop below moves by what the specification skips. */
  lemma BlockRound(sql: string, next: nat, depth: nat, goal: nat)
    requires next < |sql| && depth > 0 && BlockEnds(sql, next, depth, goal)
    ensures var pair := next + 1 < |sql|;
      if pair && sql[next] == '/' && sql[next + 1] == '*' then BlockEnds(sql, next + 2, depth + 1, goal)
      else if pair && sql[next] == '*' && sql[next + 1] == '/' then BlockEnds(sql, next + 2, depth - 1, goal)
      else BlockEnds(sql, next + 1, depth, goal)
  {
    assert sql[next..][1..] == sql[next + 1..];
    if next + 1 < |sql| {
      assert sql[next..][..2] == [sql[next], sql[next + 1]] && sql[next..][2..] == sql[next + 2..];
    }
  }

  lemma BlockDone(sql: string, next: nat, depth: nat, goal: nat)
    requires BlockEnds(sql, next, depth, goal) && (next == |sql| || depth == 0)
    ensures next == goal
  {
  }

  method CopyBlockComment(sql: string, output: string, index: nat) returns (out: string, next: nat)
    requires index + 2 <= |sql|
    ensures next == index + 2 + BlockTail(sql[index + 2..], 1)
    ensures out == output + sql[index..next]
  {
    next := index + 2;
    var depth := 1;
    ghost var goal := index + 2 + BlockTail(sql[index + 2..], 1);
    while next < |sql| && depth > 0
      invariant index + 2 <= next <= |sql|
      invariant BlockEnds(sql, next, depth, goal)
    {
      BlockRound(sql, next, depth, goal);
      if next + 1 < |sql| && sql[next] == '/' && sql[next + 1] == '*' {
        depth := depth + 1;
        next := next + 2;
      } else if next + 1 < |sql| && sql[next] == '*' && sql[next + 1] == '/' {
        depth := depth - 1;
        next := next + 2;
      } else {
        next := next + 1;
      }
    }
    BlockDone(sql, next, depth, goal);
    out := output + sql[index..next];
  }

  method DollarDelimiterEnd(sql: string, start: nat) returns (end: Option<int>)
    requires start < |sql| && sql[start] == '$'
    ensures end.Some? <==> DollarDelimiter(sql[start..]).Some?
    ensures end.Some? ==> end.value == start + DollarDelimiter(sql[start..]).value <= |sql|
  {
    var index := start + 1;
    if index < |sql| && sql[index] == '$' { return Some(index + 1); }
    if index == |sql| || !IdentifierStart(sql[index]) { return None; }
    index := index + 1;
    assert sql[start..][2..] == sql[index..];
    while index < |sql| && IdentifierContinue(sql[index])
      invariant start + 2 <= index <= |sql|
      invariant start + 2 + WordTail(sql[start + 2..]) == index + WordTail(sql[index..])
    {
      assert sql[index..][1..] == sql[index + 1..];
      index := index + 1;
    }
    return if index < |sql| && sql[index] == '$' then Some(index + 1) else None;
  }

  method CopyDollarQuoted(sql: string, output: string, index: nat, bodyStart: nat) returns (out: string, next: nat)
    requires index < bodyStart <= |sql|
    ensures next == bodyStart + DollarTail(sql[bodyStart..], sql[index..bodyStart])
    ensures out == output + sql[index..next]
  {
    var delimiter := sql[index..bodyStart];
    next := bodyStart;
    while next < |sql| && !StartsWith(sql[next..], delimiter)
      invariant bodyStart <= next <= |sql|
      invariant bodyStart + DollarTail(sql[bodyStart..], delimiter) == next + DollarTail(sql[next..], delimiter)
    {
      assert sql[next..][1..] == sql[next + 1..];
      next := next + 1;
    }
    if next < |sql| { next := next + |delimiter|; }
    out := output + sql[index..next];
  }

  method CopyWord(sql: string, output: string, index: nat) returns (out: string, next: nat)
    requires index < |sql|
    ensures next == index + 1 + WordTail(sql[index + 1..])
    ensures out == output +
      if CallFollows(sql[next..]) && RewriteName(sql[index..next]).Some? then RewriteName(sql[index..next]).value
      else sql[index..next]
  {
    next := index + 1;
    while next < |sql| && IdentifierContinue(sql[next])
      invariant index < next <= |sql|
      invariant index + 1 + WordTail(sql[index + 1..]) == next + WordTail(sql[next..])
    {
      assert sql[next..][1..] == sql[next + 1..];
      next := next + 1;
    }
    var look := next;
    while look < |sql| && Whitespace(sql[look])
      invariant next <= look <= |sql|
      invariant CallFollows(sql[next..]) <==> CallFollows(sql[look..])
    {
      assert sql[look..][1..] == sql[look + 1..];
      look := look + 1;
    }
    var identifier := sql[index..next];
    var renamed := RewriteName(identifier);
    if look < |sql| && sql[look] == '(' && renamed.Some? {
      out := output + renamed.value;
    } else {
      out := output + identifier;
    }
  }

  lemma QuotedText(s: string)
    requires s != "" && (s[0] == '\'' || s[0] == '"')
    ensures TokenLength(s) == 1 + QuotedTail(s[1..], s[0]) && NewText(s) == s[..TokenLength(s)]
  {
  }

  lemma OpenedText(s: string)
    requires Opens(s)
    ensures TokenLength(s) == 2 + OpenedTail(s) && NewText(s) == s[..TokenLength(s)]
  {
    OpenedToken(s);
  }

  lemma SymbolText(s: string)
    requires s != "" && !Opens(s) && s[0] != '\'' && s[0] != '"' && !IdentifierStart(s[0])
    ensures TokenLength(s) == 1 && NewText(s) == s[..1]
  {
    OpenedToken(s);
  }

  lemma WordText(s: string)
    requires s != "" && IdentifierStart(s[0])
    ensures var n := 1 + WordTail(s[1..]);
      TokenLength(s) == n
      && NewText(s) == if CallFollows(s[n..]) && RewriteName(s[..n]).Some? then RewriteName(s[..n]).value else s[..n]
  {
    assert KindOf(s) == Word;
  }

  /** The token at `index` has been copied or renamed. */
  ghost predicate TokenCopied(sql: string, output: string, index: nat, out: string, next: nat) {
    index < |sql| && next == index + TokenLength(sql[index..]) && out == output + NewText(sql[index..])
  }

  lemma QuotedCopied(sql: string, output: string, index: nat, out: string, next: nat)
    requires index < |sql| && (sql[index] == '\'' || sql[index] == '"')
    requires next == index + 1 + QuotedTail(sql[index + 1..], sql[index]) && out == output + sql[index..next]
    ensures TokenCopied(sql, output, index, out, next)
  {
    var s := sql[index..];
    assert s[1..] == sql[index + 1..];
    QuotedText(s);
    assert s[..TokenLength(s)] == sql[index..index + TokenLength(s)];
  }

  lemma OpenedCopied(sql: string, output: string, index: nat, out: string, next: nat)
    requires index + 2 <= |sql| && Opens(sql[index..])
    requires next == index + 2 + OpenedTail(sql[index..]) && out == output + sql[index..next]
    ensures TokenCopied(sql, output, index, out, next)
  {
    var s := sql[index..];
    OpenedText(s);
    assert s[..TokenLength(s)] == sql[index..index + TokenLength(s)];
  }

  lemma LineCopied(sql: string, output: string, index: nat, out: string, next: nat)
    requires index + 2 <= |sql| && sql[index] == '-' && sql[index + 1] == '-'
    requires next == index + 2 + LineTail(sql[index + 2..]) && out == output + sql[index..next]
    ensures TokenCopied(sql, output, index, out, next)
  {
    assert Pair(sql[index..], '-', '-') && sql[index..][2..] == sql[index + 2..];
    OpenedCopied(sql, output, index, out, next);
  }

  lemma BlockCopied(sql: string, output: string, index: nat, out: string, next: nat)
    requires index + 2 <= |sql| && sql[index] == '/' && sql[index + 1] == '*'
    requires next == index + 2 + BlockTail(sql[index + 2..], 1) && out == output + sql[index..next]
    ensures TokenCopied(sql, output, index, out, next)
  {
    assert Pair(sql[index..], '/', '*') && sql[index..][2..] == sql[index + 2..];
    OpenedCopied(sql, output, index, out, next);
  }

  lemma DollarCopied(sql: string, output: string, index: nat, end: nat, out: string, next: nat)
    requires index < |sql| && sql[index] == '$' && DollarDelimiter(sql[index..]).Some?
    requires end == index + DollarDelimiter(sql[index..]).value <= |sql|
    requires next == end + DollarTail(sql[end..], sql[index..end]) && out == output + sql[index..next]
    ensures TokenCopied(sql, output, index, out, next)
  {
    var s := sql[index..];
    OnlyEmptyTags(s);
    assert s[2..] == sql[end..] && sql[index..end] == "$$";
    OpenedCopied(sql, output, index, out, next);
  }

  lemma WordCopied(sql: string, output: string, index: nat, out: string, next: nat)
    requires index < |sql| && IdentifierStart(sql[index]) && next == index + 1 + WordTail(sql[index + 1..])
    requires out == output +
      if CallFollows(sql[next..]) && RewriteName(sql[index..next]).Some? then RewriteName(sql[index..next]).value
      else sql[index..next]
    ensures TokenCopied(sql, output, index, out, next)
  {
    var s := sql[index..];
    assert s[1..] == sql[index + 1..];
    WordText(s);
    assert s[..next - index] == sql[index..next] && s[next - index..] == sql[next..];
  }

  lemma SymbolCopied(sql: string, output: string, index: nat)
    requires index < |sql| && sql[index] != '\'' && sql[index] != '"' && !IdentifierStart(sql[index])
    requires sql[index] == '$' ==> DollarDelimiter(sql[index..]).None?
    requires index + 1 < |sql| ==>
      !(sql[index] == '-' && sql[index + 1] == '-') && !(sql[index] == '/' && sql[index + 1] == '*')
    ensures TokenCopied(sql, output, index, output + [sql[index]], index + 1)
  {
    var s := sql[index..];
    if s[0] == '$' { OnlyEmptyTags(s); }
    SymbolText(s);
    assert s[..1] == [sql[index]];
  }

  /** One round of the main loop. */
  method CopyToken(sql: string, output: string, index: nat) returns (out: string, next: nat)
    requires index < |sql|
    ensures TokenCopied(sql, output, index, out, next)
  {
    if sql[index] == '\'' || sql[index] == '"' {
      out, next := CopyQuoted(sql, output, index, sql[index]);
      QuotedCopied(sql, output, index, out, next);
    } else if sql[index] == '-' && index + 1 < |sql| && sql[index + 1] == '-' {
      out, next := CopyLineComment(sql, output, index);
      LineCopied(sql, output, index, out, next);
    } else if sql[index] == '/' && index + 1 < |sql| && sql[index + 1] == '*' {
      out, next := CopyBlockComment(sql, output, index);
      BlockCopied(sql, output, index, out, next);
    } else if sql[index] == '$' {
      var end := DollarDelimiterEnd(sql, index);
      if end.Some? {
        out, next := CopyDollarQuoted(sql, output, index, end.value);
        DollarCopied(sql, output, index, end.value, out, next);
      } else {
        out, next := output + ['$'], index + 1;
        SymbolCopied(sql, output, index);
      }
    } else if IdentifierStart(sql[index]) {
      out, next := CopyWord(sql, output, index);
      WordCopied(sql, output, index, out, next);
    } else {
      out, next := output + [sql[index]], index + 1;
      SymbolCopied(sql, output, index);
    }
  }

  /** The output so far, followed by what becomes of the rest, is the goal. */
  ghost predicate Rewritten(sql: string, index: nat, output: string, goal: string) {
    index <= |sql| && output + Rewrite(sql[index..]) == goal
  }

  /** What the token at `index` adds to the output. */
  lemma TokenAdds(sql: string, output: string, index: nat, out: string, next: nat) returns (text: string)
    requires index < |sql| && next == index + TokenLength(sql[index..]) && out == output + NewText(sql[index..])
    ensures index < next <= |sql| && out == output + text && Rewrite(sql[index..]) == text + Rewrite(sql[next..])
  {
    var s := sql[index..];
    text := NewText(s);
    assert s[TokenLength(s)..] == sql[next..];
  }

  lemma RewriteStep(sql: string, output: string, index: nat, goal: string, text: string, out: string, next: nat)
    requires Rewritten(sql, index, output, goal) && next <= |sql|
    requires out == output + text && Rewrite(sql[index..]) == text + Rewrite(sql[next..])
    ensures Rewritten(sql, next, out, goal)
  {
    Regroup(output, text, Rewrite(sql[next..]), Rewrite(sql[index..]), goal, out);
  }

  lemma Regroup(output: string, text: string, rest: string, whole: string, goal: string, out: string)
    requires out == output + text && whole == text + rest && output + whole == goal
    ensures out + rest == goal
  {
  }

  lemma RewriteBegins(sql: string)
    ensures Rewritten(sql, 0, "", Rewrite(sql))
  {
    assert sql[0..] == sql;
  }

  lemma RewriteEnds(sql: string, output: string, goal: string)
    requires Rewritten(sql, |sql|, output, goal)
    ensures output == goal
  {
    assert sql[|sql|..] == "";
  }

  /** The whole rewriter: every round consumes at least one character and the output is the specified text. */
  method RewritePostgisSql(sql: string) returns (output: string)
    ensures output == Rewrite(sql)
  {
    output := "";
    var index := 0;
    ghost var goal := Rewrite(sql);
    RewriteBegins(sql);
    while index < |sql|
      invariant 0 <= index <= |sql|
      invariant Rewritten(sql, index, output, goal)
    {
      var out, next := CopyToken(sql, output, index);
      ghost var text := TokenAdds(sql, output, index, out, next);
      RewriteStep(sql, output, index, goal, text, out, next);
      output, index := out, next;
    }
    RewriteEnds(sql, output, goal);
  }
}
