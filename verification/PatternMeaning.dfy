/**
 What the patterns of the preset tools match: a sequence of tokens matches by splitting the text, every such sequence can
 be written as a pattern, and the pins that are shipped (BRAIN-DAEMON/quantize/inspect-imatrix.py) find the norms, the
 routers and three small families.
 */
module PatternMeaning {
  import opened Helpers
  import opened PresetEmitter
  import opened QuantFlags
  import opened RegexLite

  // ---------------------------------------------------------------- matching is splitting

  /** What one token stands for: its character, any one character but a newline, or any text without a newline. */
  predicate StandsFor(t: Token, part: string) {
    match t
    case Literal(c) => part == [c]
    case AnyChar => |part| == 1 && part[0] != '\n'
    case AnyStar => '\n' !in part
  }

  function Join(parts: seq<string>): string {
    if parts == [] then "" else parts[0] + Join(parts[1..])
  }

  /** `s` starts with parts that the tokens stand for, one after the other. */
  ghost predicate Splits(tokens: seq<Token>, s: string, parts: seq<string>) {
    && |parts| == |tokens| && Join(parts) <= s
    && forall k :: 0 <= k < |tokens| ==> StandsFor(tokens[k], parts[k])
  }

  lemma SplitsOfCons(t: Token, tokens: seq<Token>, part: string, parts: seq<string>, s: string)
    requires StandsFor(t, part) && part <= s && Splits(tokens, s[|part|..], parts)
    ensures Splits([t] + tokens, s, [part] + parts)
  {
    hide StandsFor;
    assert ([part] + parts)[1..] == parts;
    var rest := s[|part|..];
    assert s == part + rest && rest == Join(parts) + rest[|Join(parts)|..];
    assert s == (part + Join(parts)) + rest[|Join(parts)|..];
  }

  lemma SplitsTail(tokens: seq<Token>, s: string, parts: seq<string>)
    requires tokens != [] && Splits(tokens, s, parts)
    ensures StandsFor(tokens[0], parts[0]) && parts[0] <= s && Splits(tokens[1..], s[|parts[0]|..], parts[1..])
  {
    hide StandsFor;
    var head, joined := parts[0], Join(parts[1..]);
    assert head + joined <= s;
    assert s[..|head + joined|] == head + joined;
    assert s[..|head|] == (head + joined)[..|head|] == head;
    assert s[|head|..][..|joined|] == (head + joined)[|head|..] == joined;
  }

  lemma {:induction false} MatchSplits(tokens: seq<Token>, s: string) returns (parts: seq<string>)
    requires MatchesHere(tokens, s)
    ensures Splits(tokens, s, parts)
    decreases |tokens|, |s|
  {
    if tokens == [] {
      parts := [];
      assert Join(parts) == "" && "" <= s;
    } else {
      assert tokens == [tokens[0]] + tokens[1..];
      if tokens[0] == AnyStar && MatchesHere(tokens[1..], s) {
        var rest := MatchSplits(tokens[1..], s);
        assert s[0..] == s;
        SplitsOfCons(AnyStar, tokens[1..], "", rest, s);
        parts := [""] + rest;
      } else if tokens[0] == AnyStar {
        var rest := MatchSplits(tokens, s[1..]);
        SplitsTail(tokens, s[1..], rest);
        var longer := [s[0]] + rest[0];
        assert s == [s[0]] + s[1..] && s[|longer|..] == s[1..][|rest[0]|..];
        assert longer <= s;
        SplitsOfCons(AnyStar, tokens[1..], longer, rest[1..], s);
        parts := [longer] + rest[1..];
      } else {
        var rest := MatchSplits(tokens[1..], s[1..]);
        assert [s[0]] <= s;
        SplitsOfCons(tokens[0], tokens[1..], [s[0]], rest, s);
        parts := [[s[0]]] + rest;
      }
    }
  }

  lemma {:induction false} SplitMatches(tokens: seq<Token>, s: string, parts: seq<string>)
    requires Splits(tokens, s, parts)
    ensures MatchesHere(tokens, s)
    decreases |tokens|, |s|
  {
    if tokens != [] {
      SplitsTail(tokens, s, parts);
      if tokens[0] == AnyStar {
        StarThenRest(tokens, s, parts);
      } else {
        SplitMatches(tokens[1..], s[1..], parts[1..]);
      }
    }
  }

  lemma StarThenRest(tokens: seq<Token>, s: string, parts: seq<string>)
    requires tokens != [] && tokens[0] == AnyStar && Splits(tokens, s, parts)
    ensures MatchesHere(tokens, s)
    decreases |tokens|, |s|, 0
  {
    SplitsTail(tokens, s, parts);
    if parts[0] == "" {
      assert s[0..] == s;
      SplitMatches(tokens[1..], s, parts[1..]);
    } else {
      var part := parts[0];
      assert part == [part[0]] + part[1..] && s[0] == part[0];
      assert part[1..] <= s[1..] && s[1..][|part[1..]|..] == s[|part|..];
      SplitsOfCons(AnyStar, tokens[1..], part[1..], parts[1..], s[1..]);
      assert [AnyStar] + tokens[1..] == tokens;
      StarThenRest(tokens, s[1..], [part[1..]] + parts[1..]);
    }
  }

  /** The tokens match at the start of a text exactly when it starts with parts they stand for. */
  lemma MatchesBySplitting(tokens: seq<Token>, s: string)
    ensures MatchesHere(tokens, s) <==> exists parts :: Splits(tokens, s, parts)
  {
    hide MatchesHere, Splits;
    if MatchesHere(tokens, s) {
      var parts := MatchSplits(tokens, s);
    }
    if parts :| Splits(tokens, s, parts) {
      SplitMatches(tokens, s, parts);
    }
  }

  // ---------------------------------------------------------------- writing tokens as a pattern

  function WrittenToken(t: Token): string {
    match t
    case Literal(c) => if c in "()[]{}?*+|^$\\." then ['\\', c] else [c]
    case AnyChar => "."
    case AnyStar => ".*"
  }

  /** The usual notation: a backslash before the characters that mean something else, a dot, and a dot with a star. */
  function Written(tokens: seq<Token>): string {
    if tokens == [] then "" else WrittenToken(tokens[0]) + Written(tokens[1..])
  }

  lemma WrittenStartsPlain(tokens: seq<Token>)
    ensures Written(tokens) != "" ==> Written(tokens)[0] !in "+*"
  {
    if tokens != [] {
      assert Written(tokens)[0] == WrittenToken(tokens[0])[0];
      assert ".*"[0] == '.';
    }
  }

  lemma {:induction false} ParsesWhatIsWritten(tokens: seq<Token>)
    ensures Parse(Written(tokens)) == tokens && IsSimple(Written(tokens))
  {
    if tokens != [] {
      var rest := Written(tokens[1..]);
      ParsesWhatIsWritten(tokens[1..]);
      WrittenStartsPlain(tokens[1..]);
      hide Written;
      assert tokens == [tokens[0]] + tokens[1..];
      TokenInFront(tokens[0], rest);
      assert Written(tokens) == WrittenToken(tokens[0]) + rest by {
        WrittenOfCons(tokens);
      }
    }
  }

  lemma WrittenOfCons(tokens: seq<Token>)
    requires tokens != []
    ensures Written(tokens) == WrittenToken(tokens[0]) + Written(tokens[1..])
  {
  }

  lemma TokenInFront(t: Token, rest: string)
    requires IsSimple(rest) && (rest != "" ==> rest[0] !in "+*")
    ensures Parse(WrittenToken(t) + rest) == [t] + Parse(rest) && IsSimple(WrittenToken(t) + rest)
  {
    match t
    case Literal(c) =>
      MetaIsSpecial(c);
      assert IsMeta(c) <==> c in "()[]{}?*+|^$\\.";
      assert !IsMeta(c) ==> c != '\\' && c != '.';
      hide IsMeta, IsSpecial;
      assert (['\\', c] + rest)[2..] == rest && ([c] + rest)[1..] == rest;
    case AnyChar =>
      assert ("." + rest)[1..] == rest;
    case AnyStar =>
      assert (".*" + rest)[2..] == rest;
  }

  /** A dot with a plus takes one character and then any number. */
  lemma PlusIsOneAndMore(rest: string)
    requires IsSimple(rest)
    ensures Parse(".+" + rest) == [AnyChar, AnyStar] + Parse(rest) && IsSimple(".+" + rest)
  {
    assert (".+" + rest)[2..] == rest;
  }

  /** A written pattern is found in a text exactly when some part of the text splits into what its tokens stand for. */
  lemma SearchSplits(tokens: seq<Token>, s: string)
    ensures Search(Written(tokens), s) <==> exists k: nat, parts :: k <= |s| && Splits(tokens, s[k..], parts)
  {
    ParsesWhatIsWritten(tokens);
    forall k | 0 <= k <= |s| ensures MatchesHere(tokens, s[k..]) <==> exists parts :: Splits(tokens, s[k..], parts) {
      MatchesBySplitting(tokens, s[k..]);
    }
    hide MatchesHere, Splits, Parse, IsSimple, Written;
  }

  /** Escaping puts a backslash before these characters and leaves every other alone. */
  lemma EscapedCharacters(c: char, rest: string)
    ensures Escape([c] + rest) ==
      (if c in "()[]{}?*+-|^$\\.&~# \U{9}\U{A}\U{B}\U{C}\U{D}" then ['\\', c] else [c]) + Escape(rest)
  {
    EscapeOfCons(c, rest);
    hide Escape;
  }

  // ---------------------------------------------------------------- the shipped pins

  /** `_norm.` stands in the name, behind at least one character. */
  predicate HasNorm(name: string) {
    exists n :: 1 <= n <= |name| && "_norm." <= name[n..] && name[n - 1] != '\n'
  }

  lemma WordDotParses(word: string)
    requires Plain(word)
    ensures Parse(word + "\\..*") == Literals(word + ".") + [AnyStar] && IsSimple(word + "\\..*")
  {
    DotAnythingIsSimple();
    ParseDotAnything();
    PlainIsSimple(word, "\\..*");
    ParsePlain(word, "\\..*");
    hide Parse, IsSimple, Plain;
    assert Literals(word) + [Literal('.'), AnyStar] == Literals(word + ".") + [AnyStar];
  }

  lemma NormIsPlain()
    ensures Plain("_norm")
  {
  }

  lemma NormPattern()
    ensures Parse(".+_norm\\..*") == [AnyChar, AnyStar] + (Literals("_norm.") + [AnyStar]) && IsSimple(".+_norm\\..*")
  {
    NormIsPlain();
    hide *;
    WordDotParses("_norm");
    PlusIsOneAndMore("_norm" + "\\..*");
    assert "_norm" + "." == "_norm.";
    assert ".+" + ("_norm" + "\\..*") == ".+_norm\\..*";
  }

  lemma {:induction false} StarFindsLater(rest: seq<Token>, s: string)
    ensures MatchesHere([AnyStar] + rest, s)
      <==> exists n :: 0 <= n <= |s| && '\n' !in s[..n] && MatchesHere(rest, s[n..])
    decreases |s|
  {
    var tokens := [AnyStar] + rest;
    assert tokens[1..] == rest && s[0..] == s && s[..0] == "";
    if s != "" {
      StarFindsLater(rest, s[1..]);
      assert MatchesHere(tokens, s) <==> MatchesHere(rest, s) || (s[0] != '\n' && MatchesHere(tokens, s[1..]));
      hide MatchesHere;
      if s[0] != '\n' {
        if n :| 0 <= n <= |s[1..]| && '\n' !in s[1..][..n] && MatchesHere(rest, s[1..][n..]) {
          OneFurther(s, n);
        }
      }
      if n :| 0 <= n <= |s| && '\n' !in s[..n] && MatchesHere(rest, s[n..]) && n > 0 {
        OneFurther(s, n - 1);
      }
    }
  }

  lemma PlusFindsLater(rest: seq<Token>, s: string)
    ensures MatchesHere([AnyChar, AnyStar] + rest, s)
      <==> exists n :: 1 <= n <= |s| && '\n' !in s[..n] && MatchesHere(rest, s[n..])
  {
    var tokens := [AnyChar, AnyStar] + rest;
    assert tokens[1..] == [AnyStar] + rest;
    assert MatchesHere(tokens, s) <==> s != "" && s[0] != '\n' && MatchesHere([AnyStar] + rest, s[1..]);
    if s != "" {
      StarFindsLater(rest, s[1..]);
      hide MatchesHere;
      if n :| 0 <= n <= |s[1..]| && '\n' !in s[1..][..n] && MatchesHere(rest, s[1..][n..]) {
        OneFurther(s, n);
      }
      if n :| 1 <= n <= |s| && '\n' !in s[..n] && MatchesHere(rest, s[n..]) {
        OneFurther(s, n - 1);
      }
    }
  }

  lemma OneFurther(s: string, n: nat)
    requires n < |s|
    ensures s[1..][n..] == s[n + 1..] && ('\n' in s[..n + 1] <==> s[0] == '\n' || '\n' in s[1..][..n])
  {
    assert s[..n + 1] == [s[0]] + s[1..][..n];
  }

  lemma NormMatches(s: string)
    ensures MatchesHere([AnyChar, AnyStar] + (Literals("_norm.") + [AnyStar]), s)
      <==> exists n :: 1 <= n <= |s| && '\n' !in s[..n] && "_norm." <= s[n..]
  {
    hide *;
    var rest := Literals("_norm.") + [AnyStar];
    forall t: string ensures MatchesHere(rest, t) <==> "_norm." <= t {
      LiteralsMatchPrefix("_norm.", [AnyStar], t);
      StarMatches(t, 6);
    }
    PlusFindsLater(rest, s);
  }

  lemma NormIsFound(name: string)
    ensures Search(".+_norm\\..*", name) <==> HasNorm(name)
  {
    NormPattern();
    var tokens := [AnyChar, AnyStar] + (Literals("_norm.") + [AnyStar]);
    hide Parse, IsSimple, MatchesHere, Literals;
    forall k | 0 <= k <= |name|
      ensures MatchesHere(tokens, name[k..]) <==> exists n :: 1 <= n <= |name[k..]| && '\n' !in name[k..][..n] && "_norm." <= name[k..][n..]
    {
      NormMatches(name[k..]);
    }
    if k :| 0 <= k <= |name| && MatchesHere(tokens, name[k..]) {
      var n :| 1 <= n <= |name[k..]| && '\n' !in name[k..][..n] && "_norm." <= name[k..][n..];
      NormStands(name, k, n);
    }
    if n :| 1 <= n <= |name| && "_norm." <= name[n..] && name[n - 1] != '\n' {
      var tail := name[n - 1..];
      OneBefore(name, n);
      assert MatchesHere(tokens, tail);
    }
  }

  lemma NormStands(name: string, k: nat, n: nat)
    requires k <= |name| && 1 <= n <= |name[k..]| && '\n' !in name[k..][..n] && "_norm." <= name[k..][n..]
    ensures HasNorm(name)
  {
    assert name[k..][n..] == name[k + n..] && name[k..][..n][n - 1] == name[k + n - 1];
  }

  lemma OneBefore(name: string, n: nat)
    requires 1 <= n <= |name| && name[n - 1] != '\n'
    ensures var tail := name[n - 1..]; |tail| >= 1 && '\n' !in tail[..1] && tail[1..] == name[n..]
  {
  }

  lemma RoutersAreFound(name: string)
    ensures Search("ffn_gate_inp\\..*", name) <==> Contains(name, "ffn_gate_inp.")
    ensures Search("ffn_gate_inp_shexp\\..*", name) <==> Contains(name, "ffn_gate_inp_shexp.")
  {
    hide Search, Contains;
    PinIsFoundBy("ffn_gate_inp", "ffn_gate_inp.", "ffn_gate_inp\\..*", name);
    PinIsFoundBy("ffn_gate_inp_shexp", "ffn_gate_inp_shexp.", "ffn_gate_inp_shexp\\..*", name);
  }

  lemma SmallFamiliesAreFound(name: string)
    ensures Search("ssm_alpha\\..*", name) <==> Contains(name, "ssm_alpha.")
    ensures Search("ssm_beta\\..*", name) <==> Contains(name, "ssm_beta.")
    ensures Search("ssm_conv1d\\..*", name) <==> Contains(name, "ssm_conv1d.")
  {
    hide Search, Contains;
    PinIsFoundBy("ssm_alpha", "ssm_alpha.", "ssm_alpha\\..*", name);
    PinIsFoundBy("ssm_beta", "ssm_beta.", "ssm_beta\\..*", name);
    PinIsFoundBy("ssm_conv1d", "ssm_conv1d.", "ssm_conv1d\\..*", name);
  }

  /** The shipped pins find a norm that does not start the name, both kinds of router, and three small families. */
  lemma ShippedPinsFind(name: string)
    ensures AnyFinds(PIN_PATTERNS, name) <==>
      || HasNorm(name) || Contains(name, "ffn_gate_inp.") || Contains(name, "ffn_gate_inp_shexp.")
      || Contains(name, "ssm_alpha.") || Contains(name, "ssm_beta.") || Contains(name, "ssm_conv1d.")
  {
    hide Search, HasNorm, Contains;
    SixPins();
    NormIsFound(name);
    RoutersAreFound(name);
    SmallFamiliesAreFound(name);
    AnyOfSix(PIN_PATTERNS, name);
  }

  lemma AnyOfSix(patterns: seq<string>, name: string)
    requires |patterns| == 6
    ensures AnyFinds(patterns, name) <==>
      || Search(patterns[0], name) || Search(patterns[1], name) || Search(patterns[2], name)
      || Search(patterns[3], name) || Search(patterns[4], name) || Search(patterns[5], name)
  {
    hide Search;
    if k :| 0 <= k < |patterns| && Search(patterns[k], name) {
      assert k == 0 || k == 1 || k == 2 || k == 3 || k == 4 || k == 5;
    }
  }

  lemma SixPins()
    ensures |PIN_PATTERNS| == 6
    ensures PIN_PATTERNS[0] == ".+_norm\\..*" && PIN_PATTERNS[1] == "ffn_gate_inp\\..*"
    ensures PIN_PATTERNS[2] == "ffn_gate_inp_shexp\\..*" && PIN_PATTERNS[3] == "ssm_alpha\\..*"
    ensures PIN_PATTERNS[4] == "ssm_beta\\..*" && PIN_PATTERNS[5] == "ssm_conv1d\\..*"
  {
  }

  lemma PinIsFoundBy(word: string, dotted: string, pattern: string, name: string)
    requires word + "." == dotted && word + "\\..*" == pattern && AllWordCharacters(word)
    ensures Search(pattern, name) <==> Contains(name, dotted)
  {
    assert Plain(word);
    WordDotFindsContaining(word, name);
  }

  predicate AllWordCharacters(word: string) {
    forall k :: 0 <= k < |word| ==> 'a' <= word[k] <= 'z' || '0' <= word[k] <= '9' || word[k] == '_'
  }
}
