/** The compiler from include patterns to regular expressions
  * (backend/src/skills/skillPackageService.js, `patternToRegex`). */
module Glob {
  import opened Wrappers

  /** The characters that the compiler puts a backslash before. */
  const ESCAPED: string := ".+^${}()|[]\\"

  datatype Token = OptDirs | Any | InSegment | Lit(c: char)

  predicate StartsWith(s: string, prefix: string) {
    |prefix| <= |s| && s[..|prefix|] == prefix
  }

  /** How much of the pattern the next wildcard or character takes, longest wildcard first. */
  function HeadWidth(s: string): (n: nat)
    requires s != ""
    ensures 0 < n <= |s|
  {
    if StartsWith(s, "**/") then 3 else if StartsWith(s, "**") then 2 else 1
  }

  function HeadToken(s: string): Token
    requires s != ""
  {
    if StartsWith(s, "**/") then OptDirs
    else if StartsWith(s, "**") then Any
    else if s[0] == '*' then InSegment
    else Lit(s[0])
  }

  lemma {:induction false} StarsAhead(s: string)
    ensures StartsWith(s, "**") <==> |s| >= 2 && s[0] == '*' && s[1] == '*'
    ensures StartsWith(s, "**/") <==> |s| >= 3 && s[0] == '*' && s[1] == '*' && s[2] == '/'
  {
    assert |s| >= 2 ==> s[..2] == [s[0], s[1]];
    assert |s| >= 3 ==> s[..3] == [s[0], s[1], s[2]];
  }

  function Compile(pattern: string): seq<Token> {
    if pattern == "" then [] else [HeadToken(pattern)] + Compile(pattern[HeadWidth(pattern)..])
  }

  /** Away from a double star the pattern compiles character by character. */
  lemma {:induction false} CompileCharacter(s: string)
    requires s != "" && !(|s| >= 2 && s[0] == '*' && s[1] == '*')
    ensures Compile(s) == [if s[0] == '*' then InSegment else Lit(s[0])] + Compile(s[1..])
  {
    StarsAhead(s);
  }

  function EmitToken(t: Token): string {
    match t
    case OptDirs => "(?:.*/)?"
    case Any => ".*"
    case InSegment => "[^/]*"
    case Lit(c) => if c in ESCAPED then ['\\', c] else [c]
  }

  function Emit(tokens: seq<Token>): string {
    if tokens == [] then "" else EmitToken(tokens[0]) + Emit(tokens[1..])
  }

  /** The text between `^` and `$`, built in a loop over the pattern. */
  method PatternToRegex(pattern: string) returns (regex: string)
    ensures regex == Emit(Compile(pattern))
  {
    regex := "";
    var index := 0;
    while index < |pattern|
      invariant 0 <= index <= |pattern|
      invariant regex + Emit(Compile(pattern[index..])) == Emit(Compile(pattern))
    {
      ghost var start, rest := index, pattern[index..];
      var piece: string;
      if StartsWith(pattern[index..], "**/") {
        piece := "(?:.*/)?";
        index := index + 2;
      } else if StartsWith(pattern[index..], "**") {
        piece := ".*";
        index := index + 1;
      } else if pattern[index] == '*' {
        piece := "[^/]*";
      } else if pattern[index] in ESCAPED {
        piece := ['\\', pattern[index]];
      } else {
        piece := [pattern[index]];
      }
      index := index + 1;
      assert rest[index - start..] == pattern[index..];
      EmitHead(rest, pattern[index..], piece);
      Regroup(regex, piece, Emit(Compile(pattern[index..])));
      regex := regex + piece;
    }
    assert pattern[index..] == "";
    assert regex + "" == regex;
  }

  lemma {:induction false} Regroup<T>(a: seq<T>, b: seq<T>, c: seq<T>)
    ensures a + (b + c) == (a + b) + c
  {
  }

  lemma {:induction false} EmitHead(s: string, rest: string, piece: string)
    requires s != "" && rest == s[HeadWidth(s)..] && piece == EmitToken(HeadToken(s))
    ensures Emit(Compile(s)) == piece + Emit(Compile(rest))
  {
    assert Compile(s)[1..] == Compile(rest);
  }

  // ---------- regular expressions ----------

  datatype Regex = Char(c: char) | Dot | NotSlash | Star(r: Regex) | Opt(r: Regex) | Group(rs: seq<Regex>)

  predicate LineTerminator(c: char) {
    c == '\n' || c == '\r' || c == '\U{2028}' || c == '\U{2029}'
  }

  ghost predicate Matches(r: Regex, s: string)
    decreases r, |s|
  {
    match r
    case Char(c) => s == [c]
    case Dot => |s| == 1 && !LineTerminator(s[0])
    case NotSlash => |s| == 1 && s[0] != '/'
    case Star(q) => s == "" || exists i | 0 < i <= |s| :: Matches(q, s[..i]) && Matches(r, s[i..])
    case Opt(q) => s == "" || Matches(q, s)
    case Group(rs) => MatchesAll(rs, s)
  }

  /** The expressions match consecutive parts of the text. */
  ghost predicate MatchesAll(rs: seq<Regex>, s: string)
    decreases rs, |s|
  {
    if rs == [] then s == ""
    else exists i | 0 <= i <= |s| :: Matches(rs[0], s[..i]) && MatchesAll(rs[1..], s[i..])
  }

  /** A reader of the part of the ECMAScript pattern syntax that the compiler can produce: characters,
    * `.`, `[^/]`, backslash escapes, `(?:...)`, and the quantifiers `*` and `?`. */
  function ReadAtom(text: string): (r: Option<(Regex, string)>)
    ensures r.Some? ==> |r.value.1| < |text|
    decreases |text|, 0
  {
    if text == "" then None
    else if text[0] == '.' then Some((Dot, text[1..]))
    else if text[0] == '\\' then (if |text| < 2 then None else Some((Char(text[1]), text[2..])))
    else if StartsWith(text, "[^/]") then Some((NotSlash, text[4..]))
    else if StartsWith(text, "(?:") then
      var inner := ReadSequence(text[3..]);
      if inner.Some? && inner.value.1 != "" && inner.value.1[0] == ')'
      then Some((Group(inner.value.0), inner.value.1[1..]))
      else None
    else if text[0] in "*?+^${}()|[]" then None
    else Some((Char(text[0]), text[1..]))
  }

  function ReadSequence(text: string): (r: Option<(seq<Regex>, string)>)
    ensures r.Some? ==> |r.value.1| <= |text|
    decreases |text|, 1
  {
    if text == "" || text[0] == ')' then Some(([], text))
    else
      var atom := ReadAtom(text);
      if atom.None? then None
      else
        var (r, rest) := atom.value;
        var quantified := rest != "" && (rest[0] == '*' || rest[0] == '?');
        var item := if !quantified then r else if rest[0] == '*' then Star(r) else Opt(r);
        var tail := ReadSequence(if quantified then rest[1..] else rest);
        if tail.None? then None else Some(([item] + tail.value.0, tail.value.1))
  }

  function RegexOf(t: Token): Regex {
    match t
    case OptDirs => Opt(Group([Star(Dot), Char('/')]))
    case Any => Star(Dot)
    case InSegment => Star(NotSlash)
    case Lit(c) => Char(c)
  }

  function RegexesOf(tokens: seq<Token>): seq<Regex> {
    if tokens == [] then [] else [RegexOf(tokens[0])] + RegexesOf(tokens[1..])
  }

  predicate Plain(tokens: seq<Token>) {
    forall i | 0 <= i < |tokens| :: tokens[i].Lit? ==> tokens[i].c != '?' && tokens[i].c != '*'
  }

  lemma {:induction false} EmitStart(tokens: seq<Token>)
    requires Plain(tokens)
    ensures Emit(tokens) == "" || (Emit(tokens)[0] != '*' && Emit(tokens)[0] != '?' && Emit(tokens)[0] != ')')
  {
  }

  /** One item of a sequence: an atom, its quantifier if any, and the rest. */
  lemma {:induction false} ReadItem(text: string, r: Regex, rest: string, item: Regex, next: string)
    requires text != "" && text[0] != ')' && ReadAtom(text) == Some((r, rest))
    requires || (item == r && next == rest && (rest == "" || (rest[0] != '*' && rest[0] != '?')))
             || (item == Star(r) && rest == "*" + next)
             || (item == Opt(r) && rest == "?" + next)
    ensures ReadSequence(text) ==
              if ReadSequence(next).None? then None
              else Some(([item] + ReadSequence(next).value.0, ReadSequence(next).value.1))
  {
    assert rest != "" && rest[0] in "*?" ==> rest[1..] == next || next == rest;
  }

  /** The inside of the only group the compiler emits. */
  lemma {:induction false} ReadDirs(rest: string)
    ensures ReadSequence(".*/)" + rest) == Some(([Star(Dot), Char('/')], ")" + rest))
  {
    var t1, t2, t3 := ".*/)" + rest, "/)" + rest, ")" + rest;
    assert t1[1..] == "*" + t2 && t2[1..] == t3;
    assert ReadSequence(t3) == Some(([], t3));
    ReadItem(t2, Char('/'), t3, Char('/'), t3);
    ReadItem(t1, Dot, "*" + t2, Star(Dot), t2);
    assert [Star(Dot)] + ([Char('/')] + []) == [Star(Dot), Char('/')];
  }

  lemma {:induction false} ReadGroup(rest: string)
    ensures ReadAtom("(?:.*/)?" + rest) == Some((Group([Star(Dot), Char('/')]), "?" + rest))
  {
    var text, quantified := "(?:.*/)?" + rest, "?" + rest;
    ReadDirs(quantified);
    assert text[..3] == "(?:" && text[3..] == ".*/)" + quantified && (")" + quantified)[1..] == quantified;
  }

  lemma {:induction false} ReadLiteral(c: char, rest: string)
    requires c != '?' && c != '*'
    ensures var text := EmitToken(Lit(c)) + rest; text[0] != ')' && ReadAtom(text) == Some((Char(c), rest))
  {
    var text := EmitToken(Lit(c)) + rest;
    if c in ESCAPED {
      assert text[2..] == rest;
    } else {
      assert text[1..] == rest;
    }
  }

  function AtomOf(t: Token): Regex {
    match t
    case OptDirs => Group([Star(Dot), Char('/')])
    case Any => Dot
    case InSegment => NotSlash
    case Lit(c) => Char(c)
  }

  function QuantifierOf(t: Token): string {
    match t
    case OptDirs => "?"
    case Any => "*"
    case InSegment => "*"
    case Lit(_) => ""
  }

  lemma {:induction false} ReadTokenAtom(t: Token, rest: string)
    requires t != Lit('*') && t != Lit('?')
    ensures var text := EmitToken(t) + rest;
            text[0] != ')' && ReadAtom(text) == Some((AtomOf(t), QuantifierOf(t) + rest))
  {
    var text := EmitToken(t) + rest;
    match t
    case OptDirs => ReadGroup(rest);
    case Any => assert text[1..] == "*" + rest;
    case InSegment => assert text[..4] == "[^/]" && text[4..] == "*" + rest;
    case Lit(c) =>
      ReadLiteral(c, rest);
      assert "" + rest == rest;
  }

  lemma {:induction false} ReadToken(t: Token, rest: string)
    requires t != Lit('*') && t != Lit('?')
    requires rest == "" || (rest[0] != '*' && rest[0] != '?')
    ensures var text, tail := EmitToken(t) + rest, ReadSequence(rest);
            ReadSequence(text) ==
              if tail.None? then None else Some(([RegexOf(t)] + tail.value.0, tail.value.1))
  {
    ReadTokenAtom(t, rest);
    assert "" + rest == rest;
    ReadItem(EmitToken(t) + rest, AtomOf(t), QuantifierOf(t) + rest, RegexOf(t), rest);
  }

  predicate ReadsAsIntended(tokens: seq<Token>) {
    ReadSequence(Emit(tokens)) == Some((RegexesOf(tokens), ""))
  }

  lemma {:induction false} PlainReadsBack(tokens: seq<Token>)
    requires Plain(tokens)
    ensures ReadsAsIntended(tokens)
  {
    if tokens != [] {
      PlainReadsBack(tokens[1..]);
      EmitStart(tokens[1..]);
      ReadToken(tokens[0], Emit(tokens[1..]));
    }
  }

  predicate StarFree(tokens: seq<Token>) {
    forall i | 0 <= i < |tokens| :: tokens[i] != Lit('*')
  }

  lemma {:induction false} NothingToRepeat(rest: string)
    ensures ReadSequence("?" + rest).None?
  {
    assert ("?" + rest)[0] == '?' && "[^/]"[0] != '?' && "(?:"[0] != '?';
  }

  /** A question mark turns what comes before it into something else. */
  lemma {:induction false} ReadBeforeQuestionMark(t: Token, rest: string)
    requires t != Lit('*') && t != Lit('?')
    ensures var r := ReadSequence(EmitToken(t) + ("?" + rest)); r.None? || r.value.0 == [] || r.value.0[0] != RegexOf(t)
  {
    var quantified := "?" + rest;
    var text := EmitToken(t) + quantified;
    ReadTokenAtom(t, quantified);
    assert "" + quantified == quantified;
    NothingToRepeat(rest);
    if t.Lit? {
      ReadItem(text, AtomOf(t), quantified, Opt(AtomOf(t)), rest);
    } else {
      ReadItem(text, AtomOf(t), QuantifierOf(t) + quantified, RegexOf(t), quantified);
    }
  }

  lemma {:induction false} QuestionMarkMisleads(tokens: seq<Token>)
    requires StarFree(tokens) && Lit('?') in tokens
    ensures !ReadsAsIntended(tokens)
    decreases |tokens|
  {
    var head, tail := tokens[0], tokens[1..];
    if head == Lit('?') {
      NothingToRepeat(Emit(tail));
    } else {
      if tail[0] == Lit('?') {
        ReadBeforeQuestionMark(head, Emit(tail[1..]));
      } else {
        QuestionMarkMisleads(tail);
        ReadToken(head, Emit(tail));
        var r := ReadSequence(Emit(tail));
        assert r.Some? ==> ([RegexOf(head)] + r.value.0)[1..] == r.value.0;
        assert RegexesOf(tokens)[1..] == RegexesOf(tail);
      }
    }
  }

  lemma {:induction false} CompileKeepsCharacters(pattern: string)
    ensures StarFree(Compile(pattern))
    ensures Lit('?') in Compile(pattern) <==> '?' in pattern
  {
    if pattern != "" {
      var n := HeadWidth(pattern);
      CompileKeepsCharacters(pattern[n..]);
      StarsAhead(pattern);
      assert pattern == pattern[..n] + pattern[n..];
      assert '?' in pattern[..n] <==> pattern[0] == '?';
    }
  }

  /** The emitted text reads as the intended expression exactly when the pattern has no question mark:
    * that character alone is passed on with its meaning as a quantifier. */
  lemma {:induction false} PatternReadsAsIntended(pattern: string)
    ensures ReadsAsIntended(Compile(pattern)) <==> '?' !in pattern
  {
    CompileKeepsCharacters(pattern);
    if '?' in pattern {
      QuestionMarkMisleads(Compile(pattern));
    } else {
      PlainReadsBack(Compile(pattern));
    }
  }

  // ---------- what the expression matches ----------

  predicate OneLine(s: string) {
    forall i | 0 <= i < |s| :: !LineTerminator(s[i])
  }

  /** What one token stands for. */
  predicate Fits(t: Token, s: string) {
    match t
    case OptDirs => s == "" || (s[|s| - 1] == '/' && OneLine(s[..|s| - 1]))
    case Any => OneLine(s)
    case InSegment => '/' !in s
    case Lit(c) => s == [c]
  }

  /** The tokens match consecutive parts of the text. */
  ghost predicate Match(tokens: seq<Token>, s: string)
    decreases |tokens|, 1
  {
    if tokens == [] then s == "" else exists i | 0 <= i <= |s| :: MatchAt(tokens, s, i)
  }

  ghost predicate MatchAt(tokens: seq<Token>, s: string, i: nat)
    requires tokens != [] && i <= |s|
    decreases |tokens|, 0
  {
    Fits(tokens[0], s[..i]) && Match(tokens[1..], s[i..])
  }

  lemma {:induction false} StarOfDots(s: string)
    ensures Matches(Star(Dot), s) <==> OneLine(s)
    decreases |s|
  {
    if s != "" {
      StarOfDots(s[1..]);
      assert s[..1] == [s[0]];
      assert OneLine(s) <==> !LineTerminator(s[0]) && OneLine(s[1..]);
      assert forall i | 0 < i <= |s| :: Matches(Dot, s[..i]) ==> i == 1;
    }
  }

  lemma {:induction false} StarOfNotSlashes(s: string)
    ensures Matches(Star(NotSlash), s) <==> '/' !in s
    decreases |s|
  {
    if s != "" {
      StarOfNotSlashes(s[1..]);
      assert s[..1] == [s[0]];
      assert s == [s[0]] + s[1..];
      assert forall i | 0 < i <= |s| :: Matches(NotSlash, s[..i]) ==> i == 1;
    }
  }

  lemma {:induction false} SlashAlone(s: string)
    ensures MatchesAll([Char('/')], s) <==> s == "/"
  {
    assert [Char('/')][1..] == [];
    if s == "/" {
      assert s[..1] == "/" && s[1..] == "";
    }
  }

  lemma {:induction false} MatchesTwo(r: Regex, q: Regex, s: string)
    ensures MatchesAll([r, q], s) <==> exists i | 0 <= i <= |s| :: Matches(r, s[..i]) && MatchesAll([q], s[i..])
  {
    assert [r, q][1..] == [q];
  }

  lemma {:induction false} DirsGroup(s: string)
    ensures MatchesAll([Star(Dot), Char('/')], s) <==> s != "" && s[|s| - 1] == '/' && OneLine(s[..|s| - 1])
  {
    MatchesTwo(Star(Dot), Char('/'), s);
    forall i | 0 <= i <= |s|
      ensures Matches(Star(Dot), s[..i]) <==> OneLine(s[..i])
      ensures MatchesAll([Char('/')], s[i..]) <==> i == |s| - 1 && s[i] == '/'
    {
      StarOfDots(s[..i]);
      SlashAlone(s[i..]);
      assert |s[i..]| == 1 ==> s[i..] == [s[i]];
    }
  }

  lemma {:induction false} TokenMeaning(t: Token, s: string)
    ensures Matches(RegexOf(t), s) <==> Fits(t, s)
  {
    match t
    case OptDirs => DirsGroup(s);
    case Any => StarOfDots(s);
    case InSegment => StarOfNotSlashes(s);
    case Lit(_) =>
  }

  /** The regular expression matches exactly what the tokens match. */
  lemma {:induction false} TokensMeaning(tokens: seq<Token>, s: string)
    ensures MatchesAll(RegexesOf(tokens), s) <==> Match(tokens, s)
    decreases |tokens|
  {
    if tokens != [] {
      var rs := RegexesOf(tokens);
      assert rs[0] == RegexOf(tokens[0]) && rs[1..] == RegexesOf(tokens[1..]);
      forall i | 0 <= i <= |s|
        ensures Matches(rs[0], s[..i]) && MatchesAll(rs[1..], s[i..]) <==> MatchAt(tokens, s, i)
      {
        TokenMeaning(tokens[0], s[..i]);
        TokensMeaning(tokens[1..], s[i..]);
      }
    }
  }

  // ---------- the segment-wise reading ----------

  function FirstSlash(s: string): (f: nat)
    ensures f <= |s|
  {
    if s == "" || s[0] == '/' then 0 else 1 + FirstSlash(s[1..])
  }

  lemma {:induction false} FirstSlashIs(s: string)
    ensures var f := FirstSlash(s);
            && (f < |s| ==> s[f] == '/')
            && (forall i | 0 <= i < f :: s[i] != '/')
  {
    if s != "" && s[0] != '/' {
      FirstSlashIs(s[1..]);
      var f := FirstSlash(s);
      assert f == 1 + FirstSlash(s[1..]);
      assert forall i | 0 < i < f :: s[i] == s[1..][i - 1];
    }
  }

  /** `s.split('/')`. */
  function Segments(s: string): (segments: seq<string>)
    ensures segments != []
  {
    var f := FirstSlash(s);
    if f == |s| then [s] else [s[..f]] + Segments(s[f + 1..])
  }

  /** A star stands for any text, everything else for itself. */
  ghost predicate SegmentMatch(p: string, s: string)
    decreases |p|, 1
  {
    if p == "" then s == ""
    else if p[0] == '*' then exists i | 0 <= i <= |s| :: StarTakes(p, s, i)
    else s != "" && s[0] == p[0] && SegmentMatch(p[1..], s[1..])
  }

  /** The star in front takes the first `i` characters. */
  ghost predicate StarTakes(p: string, s: string, i: nat)
    requires p != "" && i <= |s|
    decreases |p|, 0
  {
    SegmentMatch(p[1..], s[i..])
  }

  /** `**` before further segments stands for any number of whole segments, at the end for at least one;
    * any other segment stands for one segment. */
  ghost predicate GlobMatch(ps: seq<string>, ss: seq<string>)
    decreases |ps|, |ss|
  {
    if ps == [] then ss == []
    else if ps[0] == "**" then
      if |ps| == 1 then ss != [] else GlobMatch(ps[1..], ss) || (ss != [] && GlobMatch(ps, ss[1..]))
    else ss != [] && SegmentMatch(ps[0], ss[0]) && GlobMatch(ps[1..], ss[1..])
  }

  predicate DoubleStarAhead(s: string) {
    |s| >= 2 && s[0] == '*' && s[1] == '*'
  }

  predicate NoDoubleStar(segment: string) {
    segment == "" || (!DoubleStarAhead(segment) && NoDoubleStar(segment[1..]))
  }

  /** A segment of a pattern, without its slash and without double stars. */
  predicate PlainSegment(p: string) {
    p == "" || (p[0] != '/' && !DoubleStarAhead(p) && PlainSegment(p[1..]))
  }

  lemma {:induction false} SegmentIsPlain(p: string)
    requires '/' !in p && NoDoubleStar(p)
    ensures PlainSegment(p)
  {
    if p != "" {
      SegmentIsPlain(p[1..]);
    }
  }

  predicate WholeStars(segments: seq<string>) {
    forall i | 0 <= i < |segments| :: segments[i] == "**" || NoDoubleStar(segments[i])
  }

  lemma {:induction false} FirstSlashOf(s: string, f: nat)
    requires f <= |s| && '/' !in s[..f] && (f < |s| ==> s[f] == '/')
    ensures FirstSlash(s) == f
  {
    assert forall i | 0 <= i < f :: s[i] == s[..f][i];
    FirstSlashIs(s);
  }

  /** A segment without `**` compiles character by character, whatever follows its slash. */
  lemma {:induction false} CompileSegment(p: string, rest: string)
    requires PlainSegment(p) && (rest == "" || rest[0] == '/')
    ensures Compile(p + rest) == Compile(p) + Compile(rest)
    decreases |p|
  {
    if p == "" {
      assert p + rest == rest;
    } else {
      var s, q := p + rest, p[1..];
      assert s[0] == p[0] && s[1..] == q + rest && !DoubleStarAhead(s);
      CompileCharacter(s);
      CompileCharacter(p);
      CompileSegment(q, rest);
      Regroup([if p[0] == '*' then InSegment else Lit(p[0])], Compile(q), Compile(rest));
    }
  }

  lemma {:induction false} MatchHead(t: Token, tail: seq<Token>, s: string)
    ensures Match([t] + tail, s) <==> exists i | 0 <= i <= |s| :: Fits(t, s[..i]) && Match(tail, s[i..])
  {
    var tokens := [t] + tail;
    assert tokens[1..] == tail;
    forall i | 0 <= i <= |s|
      ensures MatchAt(tokens, s, i) <==> Fits(t, s[..i]) && Match(tail, s[i..])
    {
    }
  }

  lemma {:induction false} MatchLiteral(c: char, tail: seq<Token>, s: string)
    ensures Match([Lit(c)] + tail, s) <==> s != "" && s[0] == c && Match(tail, s[1..])
  {
    MatchHead(Lit(c), tail, s);
    assert forall i | 0 <= i <= |s| :: s[..i] == [c] ==> i == 1 && s[0] == c;
    if s != "" && s[0] == c {
      assert s[..1] == [c];
    }
  }

  lemma {:induction false} CompileHead(p: string, tail: seq<Token>)
    requires PlainSegment(p) && p != ""
    ensures Compile(p) + tail == [if p[0] == '*' then InSegment else Lit(p[0])] + (Compile(p[1..]) + tail)
  {
    CompileCharacter(p);
    Regroup([if p[0] == '*' then InSegment else Lit(p[0])], Compile(p[1..]), tail);
  }

  /** Wildcards of one segment stop at the slash: they match exactly the text before it. */
  lemma {:induction false} SegmentStopsAtSlash(p: string, tail: seq<Token>, s: string)
    requires PlainSegment(p) && (tail == [] || tail[0] == Lit('/'))
    ensures var f := FirstSlash(s);
            Match(Compile(p) + tail, s) <==> SegmentMatch(p, s[..f]) && Match(tail, s[f..])
    decreases |p|, 2
  {
    if p == "" {
      assert Compile(p) + tail == tail;
      NothingBeforeSlash(tail, s);
    } else {
      CompileHead(p, tail);
      if p[0] == '*' {
        StarStopsAtSlash(p, tail, s);
      } else {
        CharacterStopsAtSlash(p, tail, s);
      }
    }
  }

  lemma {:induction false} SegmentMatchHead(p: string, s: string, f: nat)
    requires p != "" && p[0] != '*' && f <= |s|
    ensures SegmentMatch(p, s[..f]) <==> f > 0 && s[0] == p[0] && SegmentMatch(p[1..], s[1..][..f - 1])
  {
    if f > 0 {
      assert s[..f][0] == s[0] && s[..f][1..] == s[1..][..f - 1];
    }
  }

  lemma {:induction false} CharacterStopsAtSlash(p: string, tail: seq<Token>, s: string)
    requires PlainSegment(p) && (tail == [] || tail[0] == Lit('/'))
    requires p != "" && p[0] != '*'
    ensures var f := FirstSlash(s);
            Match([Lit(p[0])] + (Compile(p[1..]) + tail), s) <==> SegmentMatch(p, s[..f]) && Match(tail, s[f..])
    decreases |p|, 0
  {
    var f, rest := FirstSlash(s), Compile(p[1..]) + tail;
    MatchLiteral(p[0], rest, s);
    SegmentMatchHead(p, s, f);
    if s != "" && s[0] == p[0] {
      FirstSlashBehind(s, 1);
      SegmentStopsAtSlash(p[1..], tail, s[1..]);
    }
  }

  lemma {:induction false} NothingBeforeSlash(tail: seq<Token>, s: string)
    requires tail == [] || tail[0] == Lit('/')
    ensures var f := FirstSlash(s); Match(tail, s) <==> s[..f] == "" && Match(tail, s[f..])
  {
    assert s[0..] == s;
    if tail != [] {
      MatchLiteral('/', tail[1..], s);
      assert [Lit('/')] + tail[1..] == tail;
    }
  }

  /** One way for the star to match: it takes `i` characters, none of them a slash. */
  lemma {:induction false} StarTakesBeforeSlash(p: string, tail: seq<Token>, s: string, i: nat)
    requires PlainSegment(p) && (tail == [] || tail[0] == Lit('/'))
    requires p != "" && p[0] == '*' && i <= |s|
    ensures var f := FirstSlash(s);
            MatchAt([InSegment] + (Compile(p[1..]) + tail), s, i)
            <==> i <= f && StarTakes(p, s[..f], i) && Match(tail, s[f..])
    decreases |p|, 0
  {
    var rest := Compile(p[1..]) + tail;
    assert ([InSegment] + rest)[1..] == rest;
    BeforeSlash(s, i);
    if i <= FirstSlash(s) {
      FirstSlashBehind(s, i);
      SegmentStopsAtSlash(p[1..], tail, s[i..]);
    }
  }

  lemma {:induction false} StarStopsAtSlash(p: string, tail: seq<Token>, s: string)
    requires PlainSegment(p) && (tail == [] || tail[0] == Lit('/'))
    requires p != "" && p[0] == '*'
    ensures var f := FirstSlash(s);
            Match([InSegment] + (Compile(p[1..]) + tail), s) <==> SegmentMatch(p, s[..f]) && Match(tail, s[f..])
    decreases |p|, 1
  {
    var f, tokens := FirstSlash(s), [InSegment] + (Compile(p[1..]) + tail);
    forall i | 0 <= i <= |s|
      ensures MatchAt(tokens, s, i) <==> i <= f && StarTakes(p, s[..f], i) && Match(tail, s[f..])
    {
      StarTakesBeforeSlash(p, tail, s, i);
    }
  }

  lemma {:induction false} BeforeSlash(s: string, i: nat)
    requires i <= |s|
    ensures '/' !in s[..i] <==> i <= FirstSlash(s)
  {
    var f := FirstSlash(s);
    FirstSlashIs(s);
    if i > f {
      assert s[..i][f] == '/';
    }
  }

  lemma {:induction false} FirstSlashBehind(s: string, i: nat)
    requires i <= FirstSlash(s)
    ensures var f := FirstSlash(s);
            && FirstSlash(s[i..]) == f - i
            && s[i..][..f - i] == s[..f][i..] && s[i..][f - i..] == s[f..]
  {
    var f := FirstSlash(s);
    FirstSlashIs(s);
    FirstSlashOf(s[i..], f - i);
  }

  lemma {:induction false} DirsFit(s: string, i: nat)
    requires OneLine(s) && i <= |s|
    ensures Fits(OptDirs, s[..i]) <==> i == 0 || s[i - 1] == '/'
  {
    if i > 0 {
      assert s[..i][..i - 1] == s[..i - 1];
    }
  }

  /** Beyond the first slash, directories end where they end behind it. */
  lemma {:induction false} DirsBehind(s: string, i: nat)
    requires OneLine(s) && FirstSlash(s) < i <= |s|
    ensures var f := FirstSlash(s); Fits(OptDirs, s[..i]) <==> Fits(OptDirs, s[f + 1..][..i - f - 1])
  {
    var f := FirstSlash(s);
    FirstSlashIs(s);
    DirsFit(s, i);
    var r := s[f + 1..];
    assert OneLine(r);
    DirsFit(r, i - f - 1);
  }

  lemma {:induction false} DirsReachSlash(s: string, i: nat)
    requires OneLine(s) && 0 < i <= |s| && Fits(OptDirs, s[..i])
    ensures FirstSlash(s) < i
  {
    FirstSlashIs(s);
    DirsFit(s, i);
  }

  /** Directories, and then a text that the tail matches. */
  ghost predicate AfterDirs(tail: seq<Token>, s: string) {
    exists i | 0 <= i <= |s| :: Fits(OptDirs, s[..i]) && Match(tail, s[i..])
  }

  lemma {:induction false} DirsTo(tail: seq<Token>, s: string, i: nat)
    requires i <= |s| && Fits(OptDirs, s[..i]) && Match(tail, s[i..])
    ensures AfterDirs(tail, s)
  {
  }

  /** Beyond the first slash, the same directories and the same rest are seen from both sides of it. */
  lemma {:induction false} DirsOverSlash(s: string, i: nat)
    requires OneLine(s) && FirstSlash(s) < i <= |s|
    ensures var r, j := s[FirstSlash(s) + 1..], i - FirstSlash(s) - 1;
            j <= |r| && r[j..] == s[i..] && (Fits(OptDirs, s[..i]) <==> Fits(OptDirs, r[..j]))
  {
    DirsBehind(s, i);
  }

  lemma {:induction false} WithoutDirs(tail: seq<Token>, s: string)
    requires Match(tail, s)
    ensures AfterDirs(tail, s)
  {
    assert s[..0] == "" && s[0..] == s;
    DirsTo(tail, s, 0);
  }

  lemma {:induction false} SomeDirs(tail: seq<Token>, s: string) returns (i: nat)
    requires AfterDirs(tail, s)
    ensures i <= |s| && Fits(OptDirs, s[..i]) && Match(tail, s[i..])
  {
    i :| 0 <= i <= |s| && Fits(OptDirs, s[..i]) && Match(tail, s[i..]);
  }

  lemma {:induction false} DirsAhead(tail: seq<Token>, s: string, i: nat)
    requires OneLine(s) && 0 < i <= |s| && Fits(OptDirs, s[..i]) && Match(tail, s[i..])
    ensures var f := FirstSlash(s); f < |s| && AfterDirs(tail, s[f + 1..])
  {
    DirsReachSlash(s, i);
    DirsOverSlash(s, i);
    DirsTo(tail, s[FirstSlash(s) + 1..], i - FirstSlash(s) - 1);
  }

  lemma {:induction false} DirsPrefixed(tail: seq<Token>, s: string, i: nat)
    requires OneLine(s) && FirstSlash(s) < i <= |s|
    requires var r, j := s[FirstSlash(s) + 1..], i - FirstSlash(s) - 1; Fits(OptDirs, r[..j]) && Match(tail, r[j..])
    ensures AfterDirs(tail, s)
  {
    DirsOverSlash(s, i);
    DirsTo(tail, s, i);
  }

  /** Optional directories: none, or the first segment and again optional directories. */
  lemma {:induction false} DirsUnfold(tail: seq<Token>, s: string)
    requires OneLine(s)
    ensures var f := FirstSlash(s);
            AfterDirs(tail, s) <==> Match(tail, s) || (f < |s| && AfterDirs(tail, s[f + 1..]))
  {
    var f := FirstSlash(s);
    if Match(tail, s) {
      WithoutDirs(tail, s);
    } else if AfterDirs(tail, s) {
      var i := SomeDirs(tail, s);
      assert s[0..] == s;
      DirsAhead(tail, s, i);
    } else if f < |s| && AfterDirs(tail, s[f + 1..]) {
      var j := SomeDirs(tail, s[f + 1..]);
      DirsPrefixed(tail, s, j + f + 1);
    }
  }

  // ---------- the theorem ----------

  lemma {:induction false} NoSlashBefore(s: string)
    ensures '/' !in s[..FirstSlash(s)]
  {
    FirstSlashIs(s);
  }

  lemma {:induction false} SegmentsAfterSlash(s: string)
    requires FirstSlash(s) < |s|
    ensures var g := FirstSlash(s); Segments(s)[0] == s[..g] && Segments(s)[1..] == Segments(s[g + 1..])
  {
  }

  lemma {:induction false} NothingLeft(ps: seq<string>)
    requires ps != []
    ensures !GlobMatch(ps, [])
    decreases |ps|
  {
    if |ps| > 1 {
      NothingLeft(ps[1..]);
    }
  }

  lemma {:induction false} TokensReadGlob(pattern: string, s: string)
    requires WholeStars(Segments(pattern)) && OneLine(s)
    ensures Match(Compile(pattern), s) <==> GlobMatch(Segments(pattern), Segments(s))
    decreases |pattern|, |s|
  {
    var g := FirstSlash(pattern);
    if Segments(pattern)[0] == "**" {
      StarsReadGlob(pattern, s);
    } else if g == |pattern| {
      LastSegmentReadsGlob(pattern, s);
    } else {
      SegmentReadsGlob(pattern, s);
    }
  }

  lemma {:induction false} MatchDirs(tail: seq<Token>, s: string)
    ensures Match([OptDirs] + tail, s) <==> AfterDirs(tail, s)
  {
    MatchHead(OptDirs, tail, s);
  }

  lemma {:induction false} DirsStep(tail: seq<Token>, s: string)
    requires OneLine(s)
    ensures var f := FirstSlash(s);
            Match([OptDirs] + tail, s) <==> Match(tail, s) || (f < |s| && Match([OptDirs] + tail, s[f + 1..]))
  {
    var f := FirstSlash(s);
    DirsUnfold(tail, s);
    MatchDirs(tail, s);
    if f < |s| {
      MatchDirs(tail, s[f + 1..]);
    }
  }

  lemma {:induction false} GlobStep(ps: seq<string>, s: string)
    requires |ps| > 1 && ps[0] == "**"
    ensures var f := FirstSlash(s);
            GlobMatch(ps, Segments(s)) <==>
              GlobMatch(ps[1..], Segments(s)) || (f < |s| && GlobMatch(ps, Segments(s[f + 1..])))
  {
    if FirstSlash(s) < |s| {
      SegmentsAfterSlash(s);
    } else {
      assert Segments(s)[1..] == [];
      NothingLeft(ps);
    }
  }

  /** A pattern that begins with `**` is that alone, or goes on behind the slash. */
  lemma {:induction false} StarsShape(pattern: string)
    requires Segments(pattern)[0] == "**"
    ensures FirstSlash(pattern) == |pattern| ==> Compile(pattern) == [Any] && Segments(pattern) == ["**"]
    ensures FirstSlash(pattern) < |pattern| ==>
              |pattern| >= 3 && Compile(pattern) == [OptDirs] + Compile(pattern[3..])
              && |Segments(pattern)| > 1 && Segments(pattern)[1..] == Segments(pattern[3..])
  {
    StarsAhead(pattern);
    FirstSlashIs(pattern);
    if FirstSlash(pattern) < |pattern| {
      SegmentsAfterSlash(pattern);
      assert |pattern[..FirstSlash(pattern)]| == 2;
    }
  }

  lemma {:induction false} StarsReadGlob(pattern: string, s: string)
    requires WholeStars(Segments(pattern)) && OneLine(s) && Segments(pattern)[0] == "**"
    ensures Match(Compile(pattern), s) <==> GlobMatch(Segments(pattern), Segments(s))
    decreases |pattern|, |s|, 0
  {
    StarsShape(pattern);
    if FirstSlash(pattern) == |pattern| {
      AnyMatchesLine(s);
    } else {
      var q := pattern[3..];
      assert WholeStars(Segments(pattern)[1..]);
      DirsStep(Compile(q), s);
      GlobStep(Segments(pattern), s);
      TokensReadGlob(q, s);
      if FirstSlash(s) < |s| {
        TokensReadGlob(pattern, s[FirstSlash(s) + 1..]);
      }
    }
  }

  lemma {:induction false} AnyMatchesLine(s: string)
    requires OneLine(s)
    ensures Match([Any], s)
  {
    MatchHead(Any, [], s);
    assert [Any] + [] == [Any] && s[..|s|] == s;
  }

  lemma {:induction false} LastSegmentReadsGlob(pattern: string, s: string)
    requires WholeStars(Segments(pattern)) && pattern != "**" && FirstSlash(pattern) == |pattern|
    ensures Match(Compile(pattern), s) <==> GlobMatch(Segments(pattern), Segments(s))
  {
    var f := FirstSlash(s);
    NoSlashBefore(pattern);
    assert pattern[..|pattern|] == pattern && Segments(pattern)[0] == pattern;
    SegmentIsPlain(pattern);
    SegmentStopsAtSlash(pattern, [], s);
    assert Compile(pattern) + [] == Compile(pattern);
    assert f == |s| ==> s[..f] == s;
  }

  lemma {:induction false} PlainUpToSlash(pattern: string)
    requires NoDoubleStar(pattern[..FirstSlash(pattern)])
    ensures PlainSegment(pattern[..FirstSlash(pattern)])
  {
    NoSlashBefore(pattern);
    SegmentIsPlain(pattern[..FirstSlash(pattern)]);
  }

  lemma {:induction false} CompileFromSlash(rest: string)
    requires rest != "" && rest[0] == '/'
    ensures Compile(rest) == [Lit('/')] + Compile(rest[1..])
  {
    CompileCharacter(rest);
  }

  lemma {:induction false} CompileUpToSlash(p: string, rest: string)
    requires PlainSegment(p) && rest != "" && rest[0] == '/'
    ensures Compile(p + rest) == Compile(p) + ([Lit('/')] + Compile(rest[1..]))
  {
    CompileSegment(p, rest);
    CompileFromSlash(rest);
  }

  lemma {:induction false} Rejoin(s: string, g: nat)
    requires g < |s|
    ensures s[..g] + s[g..] == s && s[g..][0] == s[g] && s[g..][1..] == s[g + 1..]
  {
  }

  lemma {:induction false} MatchFromSlash(tokens: seq<Token>, s: string, f: nat)
    requires f <= |s| && (f < |s| ==> s[f] == '/')
    ensures Match([Lit('/')] + tokens, s[f..]) <==> f < |s| && Match(tokens, s[f + 1..])
  {
    MatchLiteral('/', tokens, s[f..]);
    if f < |s| {
      Rejoin(s, f);
    }
  }

  lemma {:induction false} SlashFound(s: string)
    ensures FirstSlash(s) < |s| ==> s[FirstSlash(s)] == '/'
  {
    FirstSlashIs(s);
  }

  lemma {:induction false} MatchUpToSlash(p: string, tokens: seq<Token>, s: string)
    requires PlainSegment(p)
    ensures var f := FirstSlash(s);
            Match(Compile(p) + ([Lit('/')] + tokens), s)
            <==> f < |s| && SegmentMatch(p, s[..f]) && Match(tokens, s[f + 1..])
  {
    SlashFound(s);
    SegmentStopsAtSlash(p, [Lit('/')] + tokens, s);
    MatchFromSlash(tokens, s, FirstSlash(s));
  }

  lemma {:induction false} GlobUpToSlash(ps: seq<string>, s: string)
    requires |ps| > 1 && ps[0] != "**"
    ensures var f := FirstSlash(s);
            GlobMatch(ps, Segments(s))
            <==> f < |s| && SegmentMatch(ps[0], s[..f]) && GlobMatch(ps[1..], Segments(s[f + 1..]))
  {
    if FirstSlash(s) < |s| {
      SegmentsAfterSlash(s);
    } else {
      assert Segments(s)[1..] == [];
      NothingLeft(ps[1..]);
    }
  }

  lemma {:induction false} CompiledUpToSlash(p: string, rest: string, s: string)
    requires PlainSegment(p) && rest != "" && rest[0] == '/'
    ensures var f := FirstSlash(s);
            Match(Compile(p + rest), s) <==> f < |s| && SegmentMatch(p, s[..f]) && Match(Compile(rest[1..]), s[f + 1..])
  {
    CompileUpToSlash(p, rest);
    MatchUpToSlash(p, Compile(rest[1..]), s);
  }

  lemma {:induction false} PatternUpToSlash(pattern: string, s: string)
    requires FirstSlash(pattern) < |pattern| && NoDoubleStar(pattern[..FirstSlash(pattern)])
    ensures var g, f := FirstSlash(pattern), FirstSlash(s);
            Match(Compile(pattern), s) <==>
              f < |s| && SegmentMatch(pattern[..g], s[..f]) && Match(Compile(pattern[g + 1..]), s[f + 1..])
  {
    var g := FirstSlash(pattern);
    PlainUpToSlash(pattern);
    FirstSlashIs(pattern);
    Rejoin(pattern, g);
    CompiledUpToSlash(pattern[..g], pattern[g..], s);
  }

  lemma {:induction false} SegmentReadsGlob(pattern: string, s: string)
    requires WholeStars(Segments(pattern)) && OneLine(s)
    requires Segments(pattern)[0] != "**" && FirstSlash(pattern) < |pattern|
    ensures Match(Compile(pattern), s) <==> GlobMatch(Segments(pattern), Segments(s))
    decreases |pattern|, |s|, 0
  {
    var g, f := FirstSlash(pattern), FirstSlash(s);
    SegmentsAfterSlash(pattern);
    PatternUpToSlash(pattern, s);
    GlobUpToSlash(Segments(pattern), s);
    if f < |s| {
      assert WholeStars(Segments(pattern)[1..]);
      TokensReadGlob(pattern[g + 1..], s[f + 1..]);
    }
  }

  /** The compiled pattern, read as a regular expression, matches a path exactly when the pattern read
    * segment by segment does, for patterns without question marks whose double stars are whole
    * segments, and paths without line terminators. */
  lemma {:induction false} CompiledPatternIsTheGlob(pattern: string, path: string)
    requires '?' !in pattern && WholeStars(Segments(pattern)) && OneLine(path)
    ensures var r := ReadSequence(Emit(Compile(pattern)));
            && r.Some? && r.value.1 == ""
            && (MatchesAll(r.value.0, path) <==> GlobMatch(Segments(pattern), Segments(path)))
  {
    PatternReadsAsIntended(pattern);
    TokensMeaning(Compile(pattern), path);
    TokensReadGlob(pattern, path);
  }
}
