/**
 The regular expressions the preset tools write and read (BRAIN-DAEMON/quantize/brain-quant.py,
 inspect-imatrix.py), used as an unanchored search.  Those they write themselves are made of literal characters,
 escaped characters, `.`, `.+` and `.*`; any other pattern, which a user's pin or a family name could bring in, is
 left to an arbitrary engine.
 */
module RegexLite {

  // ---------------------------------------------------------------- patterns

  datatype Token = Literal(c: char) | AnyChar | AnyStar

  function Parse(pattern: string): seq<Token> {
    if pattern == [] then []
    else if pattern[0] == '\\' && |pattern| > 1 then [Literal(pattern[1])] + Parse(pattern[2..])
    else if pattern[0] == '.' then
      if |pattern| > 1 && pattern[1] == '+' then [AnyChar, AnyStar] + Parse(pattern[2..])
      else if |pattern| > 1 && pattern[1] == '*' then [AnyStar] + Parse(pattern[2..])
      else [AnyChar] + Parse(pattern[1..])
    else [Literal(pattern[0])] + Parse(pattern[1..])
  }

  /** The tokens match some prefix of `s`; a dot matches anything but a newline. */
  predicate MatchesHere(tokens: seq<Token>, s: string)
    decreases |tokens|, |s|
  {
    if tokens == [] then true
    else match tokens[0]
      case Literal(c) => s != [] && s[0] == c && MatchesHere(tokens[1..], s[1..])
      case AnyChar => s != [] && s[0] != '\n' && MatchesHere(tokens[1..], s[1..])
      case AnyStar => MatchesHere(tokens[1..], s) || (s != [] && s[0] != '\n' && MatchesHere(tokens, s[1..]))
  }

  /** The pattern is of the kind that `Parse` reads as a regular expression engine does. */
  predicate IsSimple(pattern: string) {
    if pattern == [] then true
    else if pattern[0] == '\\' then |pattern| > 1 && IsSpecial(pattern[1]) && IsSimple(pattern[2..])
    else if pattern[0] == '.' then IsSimple(pattern[if |pattern| > 1 && pattern[1] in "+*" then 2 else 1..])
    else !IsMeta(pattern[0]) && IsSimple(pattern[1..])
  }

  /** What the engine answers for the other patterns: anything. */
  const ENGINE: (string, string) -> bool

  predicate Finds(tokens: seq<Token>, s: string) {
    exists k :: 0 <= k <= |s| && MatchesHere(tokens, s[k..])
  }

  /** `re.search(pattern, s)` succeeds. */
  predicate Search(pattern: string, s: string) {
    if IsSimple(pattern) then Finds(Parse(pattern), s) else ENGINE(pattern, s)
  }

  predicate Contains(s: string, part: string) {
    exists k :: 0 <= k <= |s| && part <= s[k..]
  }

  // ---------------------------------------------------------------- escaping

  /** The characters `re.escape` puts a backslash before. */
  predicate IsSpecial(c: char) {
    c in "()[]{}?*+-|^$\\.&~# \t\n\r" || c as int == 11 || c as int == 12
  }

  /** The characters that mean something else than themselves in a pattern. */
  predicate IsMeta(c: char) {
    c in "()[]{}?*+|^$\\."
  }

  predicate Plain(s: string) {
    forall k :: 0 <= k < |s| ==> !IsMeta(s[k])
  }

  function Escape(s: string): string {
    if s == [] then []
    else if IsSpecial(s[0]) then ['\\', s[0]] + Escape(s[1..])
    else [s[0]] + Escape(s[1..])
  }

  /** `text.replace("\\.", ".").replace("\\", "")`: in effect every backslash goes. */
  function Unescape(s: string): string {
    DropBackslashes(UnescapeDots(s))
  }

  function UnescapeDots(s: string): string {
    if |s| > 1 && s[0] == '\\' && s[1] == '.' then ['.'] + UnescapeDots(s[2..])
    else if s == [] then []
    else [s[0]] + UnescapeDots(s[1..])
  }

  function DropBackslashes(s: string): string {
    if s == [] then [] else if s[0] == '\\' then DropBackslashes(s[1..]) else [s[0]] + DropBackslashes(s[1..])
  }

  lemma {:induction false} UnescapeDropsBackslashes(s: string)
    ensures Unescape(s) == DropBackslashes(s)
  {
    if |s| > 1 && s[0] == '\\' && s[1] == '.' {
      UnescapeDropsBackslashes(s[2..]);
      assert (['.'] + UnescapeDots(s[2..]))[1..] == UnescapeDots(s[2..]);
      assert DropBackslashes(s) == DropBackslashes(s[1..]) == ['.'] + DropBackslashes(s[1..][1..]);
      assert s[1..][1..] == s[2..];
    } else if s != [] {
      UnescapeDropsBackslashes(s[1..]);
      assert ([s[0]] + UnescapeDots(s[1..]))[1..] == UnescapeDots(s[1..]);
    }
  }

  lemma {:induction false} EscapeAddsOnlyBackslashes(s: string)
    ensures DropBackslashes(Escape(s)) == DropBackslashes(s)
  {
    if s != [] {
      EscapeAddsOnlyBackslashes(s[1..]);
      var rest := Escape(s[1..]);
      if IsSpecial(s[0]) {
        assert (['\\', s[0]] + rest)[1..] == [s[0]] + rest;
      }
      assert ([s[0]] + rest)[1..] == rest;
    }
  }

  lemma {:induction false} DroppingNothing(s: string)
    ensures |DropBackslashes(s)| <= |s| && '\\' !in DropBackslashes(s)
    ensures DropBackslashes(s) == s <==> '\\' !in s
  {
    if s != [] {
      DroppingNothing(s[1..]);
      assert s == [s[0]] + s[1..];
    }
  }

  /** Un-escaping an escaped name gives the name back exactly when it holds no backslash. */
  lemma UnescapeRecovers(name: string)
    ensures Unescape(Escape(name)) == name <==> '\\' !in name
    ensures '\\' !in Unescape(Escape(name))
  {
    UnescapeDropsBackslashes(Escape(name));
    EscapeAddsOnlyBackslashes(name);
    DroppingNothing(name);
  }

  function EscapeChar(c: char): string {
    if IsSpecial(c) then ['\\', c] else [c]
  }

  lemma EscapeOfCons(c: char, rest: string)
    ensures Escape([c] + rest) == EscapeChar(c) + Escape(rest)
  {
    hide IsSpecial;
    assert ([c] + rest)[1..] == rest;
  }

  /** The escapes of two strings agree on nothing beyond the first character in which the strings differ. */
  lemma EscapedHeads(c: char, p: string, d: char, q: string)
    ensures EscapeChar(c) + p <= EscapeChar(d) + q <==> c == d && p <= q
  {
    DotAndBackslashAreSpecial();
    hide IsSpecial;
    var left, right := EscapeChar(c) + p, EscapeChar(d) + q;
    if c == d {
      SameHead(EscapeChar(c), p, q);
    } else {
      assert left[0] == EscapeChar(c)[0] && right[0] == EscapeChar(d)[0];
      if IsSpecial(c) && IsSpecial(d) {
        assert left[1] == c && right[1] == d;
      }
    }
  }

  lemma SameHead(head: string, p: string, q: string)
    ensures head + p <= head + q <==> p <= q
  {
    if head + p <= head + q {
      assert p == (head + q)[..|head| + |p|][|head|..];
      assert q[..|p|] == (head + q)[..|head| + |p|][|head|..];
    }
  }

  lemma Heads(c: char, p: string, d: char, q: string)
    ensures [c] + p <= [d] + q <==> c == d && p <= q
  {
    if c == d {
      SameHead([c], p, q);
    } else {
      assert ([c] + p)[0] != ([d] + q)[0];
    }
  }

  /** Escaping keeps prefixes and makes no new ones. */
  lemma {:induction false} EscapeKeepsPrefixes(part: string, s: string)
    ensures Escape(part) <= Escape(s) <==> part <= s
  {
    assert Escape("") == "" && (part != [] ==> EscapeChar(part[0]) != "");
    hide Escape, EscapeChar;
    if part != [] {
      assert part == [part[0]] + part[1..];
      EscapeOfCons(part[0], part[1..]);
      if s != [] {
        assert s == [s[0]] + s[1..];
        EscapeOfCons(s[0], s[1..]);
        EscapedHeads(part[0], Escape(part[1..]), s[0], Escape(s[1..]));
        Heads(part[0], part[1..], s[0], s[1..]);
        EscapeKeepsPrefixes(part[1..], s[1..]);
      }
    }
  }

  // ---------------------------------------------------------------- what the patterns find

  function Literals(s: string): seq<Token> {
    seq(|s|, k requires 0 <= k < |s| => Literal(s[k]))
  }

  lemma ParseOne(c: char, tail: string)
    ensures Parse(['\\', c] + tail) == [Literal(c)] + Parse(tail)
    ensures c != '\\' && c != '.' ==> Parse([c] + tail) == [Literal(c)] + Parse(tail)
  {
    assert (['\\', c] + tail)[2..] == tail && ([c] + tail)[1..] == tail;
  }

  lemma DotAndBackslashAreSpecial()
    ensures IsSpecial('.') && IsSpecial('\\')
  {
  }

  lemma LettersArePlain(c: char)
    requires 'a' <= c <= 'z'
    ensures !IsSpecial(c)
  {
  }

  lemma EscapeOne(s: string, rest: string)
    requires s != []
    ensures Escape(s) + rest == (if IsSpecial(s[0]) then ['\\', s[0]] else [s[0]]) + (Escape(s[1..]) + rest)
  {
    hide IsSpecial;
  }

  lemma LiteralsOne(s: string, rest: seq<Token>)
    requires s != []
    ensures Literals(s) + rest == [Literal(s[0])] + (Literals(s[1..]) + rest)
  {
  }

  lemma {:induction false} ParseEscaped(s: string, rest: string)
    ensures Parse(Escape(s) + rest) == Literals(s) + Parse(rest)
  {
    hide Parse, Escape, Literals, IsSpecial;
    if s == [] {
      NothingEscaped(rest);
    } else {
      ParseEscaped(s[1..], rest);
      DotAndBackslashAreSpecial();
      EscapeOne(s, rest);
      ParseOne(s[0], Escape(s[1..]) + rest);
      LiteralsOne(s, Parse(rest));
    }
  }

  lemma NothingEscaped(rest: string)
    ensures Parse(Escape("") + rest) == Literals("") + Parse(rest)
  {
    assert Escape("") + rest == rest && Literals("") + Parse(rest) == Parse(rest);
  }

  lemma {:induction false} LiteralsMatchPrefix(part: string, rest: seq<Token>, s: string)
    ensures MatchesHere(Literals(part) + rest, s) <==> part <= s && MatchesHere(rest, s[|part|..])
  {
    if part == [] {
      assert Literals(part) + rest == rest && s[0..] == s;
    } else {
      var tokens := Literals(part) + rest;
      assert tokens[1..] == Literals(part[1..]) + rest;
      if s != [] {
        LiteralsMatchPrefix(part[1..], rest, s[1..]);
        assert part <= s <==> s[0] == part[0] && part[1..] <= s[1..];
        assert part <= s ==> s[1..][|part[1..]|..] == s[|part|..];
      }
    }
  }

  lemma {:induction false} EscapedIsSimple(s: string)
    ensures IsSimple(Escape(s))
  {
    hide IsSpecial, IsMeta;
    if s != [] {
      EscapedIsSimple(s[1..]);
      MetaIsSpecial(s[0]);
      assert (['\\', s[0]] + Escape(s[1..]))[2..] == Escape(s[1..]);
      assert ([s[0]] + Escape(s[1..]))[1..] == Escape(s[1..]);
    }
  }

  lemma MetaIsSpecial(c: char)
    ensures IsMeta(c) ==> IsSpecial(c)
    ensures !IsSpecial(c) ==> c != '\\' && c != '.'
  {
  }

  /** An escaped literal finds exactly the strings that contain it. */
  lemma EscapedFindsContaining(part: string, s: string)
    ensures Search(Escape(part), s) <==> Contains(s, part)
  {
    EscapedIsSimple(part);
    hide IsSimple;
    ParseEscaped(part, "");
    assert Escape(part) + "" == Escape(part);
    assert Literals(part) + [] == Literals(part);
    forall k | 0 <= k <= |s| ensures MatchesHere(Parse(Escape(part)), s[k..]) <==> part <= s[k..] {
      LiteralsMatchPrefix(part, [], s[k..]);
    }
  }

  lemma PlainHead(s: string)
    requires Plain(s) && s != ""
    ensures s[0] != '\\' && s[0] != '.' && Plain(s[1..])
  {
    assert IsMeta('\\') && IsMeta('.');
    hide IsMeta;
    assert forall k :: 0 <= k < |s[1..]| ==> s[1..][k] == s[k + 1];
  }

  lemma {:induction false} ParsePlain(s: string, rest: string)
    requires Plain(s)
    ensures Parse(s + rest) == Literals(s) + Parse(rest)
  {
    hide Parse, Literals, Plain;
    if s == "" {
      NothingEscaped(rest);
      assert s + rest == rest && Escape("") + rest == rest;
    } else {
      PlainHead(s);
      ParsePlain(s[1..], rest);
      assert s + rest == [s[0]] + (s[1..] + rest);
      ParseOne(s[0], s[1..] + rest);
      LiteralsOne(s, Parse(rest));
    }
  }

  lemma ParseDotAnything()
    ensures Parse("\\..*") == [Literal('.'), AnyStar]
  {
    ParseOne('.', ".*");
    assert "\\..*" == ['\\', '.'] + ".*";
    assert Parse(".*") == [AnyStar] by {
      assert ".*"[2..] == "";
    }
  }

  lemma {:induction false} PlainIsSimple(s: string, rest: string)
    requires Plain(s) && IsSimple(rest)
    ensures IsSimple(s + rest)
  {
    hide Plain;
    if s == "" {
      assert s + rest == rest;
    } else {
      PlainHead(s);
      NotMeta(s);
      hide IsMeta, IsSpecial;
      PlainIsSimple(s[1..], rest);
      assert (s + rest)[1..] == s[1..] + rest;
    }
  }

  lemma NotMeta(s: string)
    requires Plain(s) && s != ""
    ensures !IsMeta(s[0])
  {
  }

  lemma DotAnythingIsSimple()
    ensures IsSimple("\\..*")
  {
    DotAndBackslashAreSpecial();
    hide IsSpecial, IsMeta;
    assert "\\..*"[2..] == ".*" && ".*"[2..] == "";
  }

  /** A plain word, an escaped dot and `.*` finds exactly the strings that contain the word followed by a dot. */
  lemma WordDotFindsContaining(word: string, s: string)
    requires Plain(word)
    ensures Search(word + "\\..*", s) <==> Contains(s, word + ".")
  {
    var pattern := word + "\\..*";
    DotAnythingIsSimple();
    PlainIsSimple(word, "\\..*");
    ParsePlain(word, "\\..*");
    ParseDotAnything();
    hide Parse, Plain, IsSimple;
    assert Literals(word) + [Literal('.'), AnyStar] == Literals(word + ".") + [AnyStar];
    assert Parse(pattern) == Literals(word + ".") + [AnyStar];
    forall k | 0 <= k <= |s| ensures MatchesHere(Parse(pattern), s[k..]) <==> word + "." <= s[k..] {
      hide Literals;
      LiteralsMatchPrefix(word + ".", [AnyStar], s[k..]);
      StarMatches(s[k..], |word| + 1);
    }
  }

  /** What is left after the word and its dot, if they are there, is matched by the star. */
  lemma StarMatches(s: string, n: nat)
    ensures n <= |s| ==> MatchesHere([AnyStar], s[n..])
  {
    assert [AnyStar][1..] == [];
  }
}
