/**
 The reduction from a printed function signature to the identity PostgreSQL tells
 overloads apart by (app/privilege_manifest.py): parameter names and modes go,
 argument types stay.
 */
module Signatures {
  import opened Collections
  import opened PrivilegeManifest

  datatype ParseError = UnparseableSignature(text: string)

  type Parsed = Result<(string, string), ParseError>

  // ----- text

  predicate IsSpace(c: char) { c == ' ' || '\t' <= c <= '\r' || '\U{1c}' <= c <= '\U{1f}' }

  function LowerChar(c: char): char { if 'A' <= c <= 'Z' then c + 32 as char else c }

  function Lower(s: string): (r: string)
    ensures |r| == |s| && forall i :: 0 <= i < |s| ==> r[i] == LowerChar(s[i])
  {
    if s == "" then "" else [LowerChar(s[0])] + Lower(s[1..])
  }

  function StripLeft(s: string): string { if s != "" && IsSpace(s[0]) then StripLeft(s[1..]) else s }

  function StripRight(s: string): string {
    if s != "" && IsSpace(s[|s| - 1]) then StripRight(s[..|s| - 1]) else s
  }

  function Strip(s: string): string { StripRight(StripLeft(s)) }

  /** `text.split()`, with the characters of the word in progress in `word`. */
  function Tokens(text: string, word: string): seq<string> {
    if text == "" then (if word == "" then [] else [word])
    else if IsSpace(text[0]) then (if word == "" then [] else [word]) + Tokens(text[1..], "")
    else Tokens(text[1..], word + [text[0]])
  }

  function Join(separator: string, words: seq<string>): string {
    if words == [] then "" else if |words| == 1 then words[0] else words[0] + separator + Join(separator, words[1..])
  }

  predicate EndsWith(s: string, suffix: string) { |suffix| <= |s| && s[|s| - |suffix|..] == suffix }

  // ----- the parser

  function StripArrays(s: string): string
    decreases |s|
  {
    if EndsWith(s, "[]") then
      var shorter := StripRight(s[..|s| - 2]);
      StripRightShortens(s[..|s| - 2]);
      StripArrays(shorter)
    else s
  }

  lemma {:induction false} StripRightShortens(s: string)
    ensures |StripRight(s)| <= |s|
  {
    if s != "" && IsSpace(s[|s| - 1]) {
      StripRightShortens(s[..|s| - 1]);
    }
  }

  function DropModifier(s: string): string {
    if s != "" && s[|s| - 1] == ')' && '(' in s then StripRight(Before(s, '(')) else s
  }

  /** Collapsed, lower case, without array suffix and length modifier. */
  function NormalizeType(text: string): string { DropModifier(StripArrays(Lower(Join(" ", Tokens(text, ""))))) }

  method Normalize(text: string) returns (collapsed: string)
    ensures collapsed == NormalizeType(text)
  {
    collapsed := Lower(Join(" ", Tokens(text, "")));
    ghost var start := collapsed;
    while EndsWith(collapsed, "[]")
      invariant StripArrays(collapsed) == StripArrays(start)
      decreases |collapsed|
    {
      StripRightShortens(collapsed[..|collapsed| - 2]);
      collapsed := StripRight(collapsed[..|collapsed| - 2]);
    }
    if collapsed != "" && collapsed[|collapsed| - 1] == ')' && '(' in collapsed {
      collapsed := StripRight(Before(collapsed, '('));
    }
  }

  function Nesting(c: char): int { if c == '(' then 1 else if c == ')' then -1 else 0 }

  /** The pieces between the commas that no parenthesis encloses, unstripped. */
  function Pieces(text: string, depth: int, current: string): seq<string>
    decreases |text|
  {
    if text == "" then [current]
    else if text[0] == ',' && depth == 0 then [current] + Pieces(text[1..], depth, "")
    else Pieces(text[1..], depth + Nesting(text[0]), current + [text[0]])
  }

  function Nonempty(): string -> bool { (s: string) => s != "" }

  function Stripping(): string -> string { (s: string) => Strip(s) }

  function SplitTopLevel(text: string): seq<string> { Filter(Map(Pieces(text, 0, ""), Stripping()), Nonempty()) }

  method Split(text: string) returns (parts: seq<string>)
    ensures parts == SplitTopLevel(text)
  {
    var pieces: seq<string> := [];
    var depth, current := 0, "";
    for i := 0 to |text|
      invariant pieces + Pieces(text[i..], depth, current) == Pieces(text, 0, "")
    {
      assert text[i..][1..] == text[i + 1..];
      ghost var rest := Pieces(text[i..], depth, current);
      depth := depth + Nesting(text[i]);
      if text[i] == ',' && depth == 0 {
        AppendAssociates(pieces, [current], Pieces(text[i + 1..], depth, ""));
        pieces := pieces + [current];
        current := "";
      } else {
        current := current + [text[i]];
      }
    }
    parts := Filter(Map(pieces + [current], Stripping()), Nonempty());
  }

  const ARGUMENT_MODES: set<string> := {"in", "out", "inout", "variadic"}

  function AfterMode(all: seq<string>): seq<string> {
    if |all| >= 2 && Lower(all[0]) in ARGUMENT_MODES then all[1..] else all
  }

  /** One argument reduced to its type; `known` holds the type names the parser recognises. */
  function ArgumentType(known: set<string>, argument: string): Option<string> {
    var all := Tokens(argument, "");
    var tokens := AfterMode(all);
    if NormalizeType(Join(" ", tokens)) in known then Some(Join(" ", tokens))
    else if |tokens| >= 2 && NormalizeType(Join(" ", tokens[1..])) in known then Some(Join(" ", tokens[1..]))
    else None
  }

  function ArgumentTypes(known: set<string>, arguments: seq<string>): Option<seq<string>> {
    if arguments == [] then Some([])
    else
      var rest := ArgumentTypes(known, arguments[..|arguments| - 1]);
      var last := ArgumentType(known, arguments[|arguments| - 1]);
      if rest.Some? && last.Some? then Some(rest.value + [last.value]) else None
  }

  function ParseSignature(known: set<string>, signature: string): Parsed {
    var text := Strip(signature);
    if text == "" || text[|text| - 1] != ')' || '(' !in text then Failure(UnparseableSignature(signature))
    else
      var name := Strip(Before(text, '('));
      var inner := Strip(After(text[..|text| - 1], '('));
      if name == "" then Failure(UnparseableSignature(signature))
      else if inner == "" then Success((name, ""))
      else
        var types := ArgumentTypes(known, SplitTopLevel(inner));
        if types.None? then Failure(UnparseableSignature(signature)) else Success((name, Join(", ", types.value)))
  }

  method NameAndIdentityArguments(known: set<string>, signature: string) returns (r: Parsed)
    ensures r == ParseSignature(known, signature)
  {
    var text := Strip(signature);
    if text == "" || text[|text| - 1] != ')' || '(' !in text {
      return Failure(UnparseableSignature(signature));
    }
    var name := Strip(Before(text, '('));
    if name == "" {
      return Failure(UnparseableSignature(signature));
    }
    var inner := Strip(After(text[..|text| - 1], '('));
    if inner == "" {
      return Success((name, ""));
    }
    var arguments := Split(inner);
    var types: seq<string> := [];
    for n := 0 to |arguments|
      invariant ArgumentTypes(known, arguments[..n]) == Some(types)
    {
      PrefixStep(arguments, n);
      var reduced := ReduceArgument(known, arguments[n]);
      if reduced.None? {
        StaysUnparseable(known, arguments, n + 1);
        return Failure(UnparseableSignature(signature));
      }
      types := types + [reduced.value];
    }
    assert arguments[..|arguments|] == arguments;
    r := Success((name, Join(", ", types)));
  }

  method ReduceArgument(known: set<string>, argument: string) returns (r: Option<string>)
    ensures r == ArgumentType(known, argument)
  {
    var tokens := Tokens(argument, "");
    if |tokens| >= 2 && Lower(tokens[0]) in ARGUMENT_MODES {
      tokens := tokens[1..];
    }
    var whole := Normalize(Join(" ", tokens));
    if whole in known {
      return Some(Join(" ", tokens));
    }
    if |tokens| >= 2 {
      var withoutName := Normalize(Join(" ", tokens[1..]));
      if withoutName in known {
        return Some(Join(" ", tokens[1..]));
      }
    }
    r := None;
  }

  lemma {:induction false} StaysUnparseable(known: set<string>, arguments: seq<string>, n: nat)
    requires n <= |arguments| && ArgumentTypes(known, arguments[..n]).None?
    ensures ArgumentTypes(known, arguments).None?
  {
    if n == |arguments| {
      assert arguments[..n] == arguments;
    } else {
      assert arguments[..|arguments| - 1][..n] == arguments[..n];
      StaysUnparseable(known, arguments[..|arguments| - 1], n);
    }
  }

  // ----- the printer

  /** A type as an operator writes it: its words, the pieces of a modifier between its spaces, array brackets. */
  datatype TypeText = TypeText(words: seq<string>, modifier: Option<seq<string>>, arrays: nat)

  datatype Argument = Argument(mode: Option<string>, name: Option<string>, typ: TypeText)

  function Brackets(n: nat): string { if n == 0 then "" else Brackets(n - 1) + "[]" }

  function ModifierText(t: TypeText): Option<string> {
    if t.modifier.Some? then Some(Join(" ", t.modifier.value)) else None
  }

  function Enclosed(modifier: Option<string>): string { if modifier.Some? then "(" + modifier.value + ")" else "" }

  function Suffix(t: TypeText): string { Enclosed(ModifierText(t)) + Brackets(t.arrays) }

  /** The pieces as tokens, with `first` glued to the front of the first and `end` to the back of the last. */
  function Glued(first: string, pieces: seq<string>, end: string): seq<string>
    requires pieces != []
    decreases |pieces|
  {
    if |pieces| == 1 then [first + pieces[0] + end] else [first + pieces[0]] + Glued("", pieces[1..], end)
  }

  function LastTokens(last: string, t: TypeText): seq<string>
    requires t.modifier != Some([])
  {
    if t.modifier.Some? then Glued(last + "(", t.modifier.value, ")" + Brackets(t.arrays))
    else [last + Brackets(t.arrays)]
  }

  predicate Printable(t: TypeText) { t.words != [] && t.modifier != Some([]) }

  function TypeTokens(t: TypeText): seq<string>
    requires Printable(t)
  {
    t.words[..|t.words| - 1] + LastTokens(t.words[|t.words| - 1], t)
  }

  function PrintType(t: TypeText): string
    requires Printable(t)
  {
    Join(" ", TypeTokens(t))
  }

  function OptionalWord(o: Option<string>): seq<string> { if o.Some? then [o.value] else [] }

  function PrintArgument(a: Argument): string
    requires Printable(a.typ)
  {
    Join(" ", OptionalWord(a.mode) + OptionalWord(a.name) + TypeTokens(a.typ))
  }

  function PrintSignature(name: string, arguments: seq<string>): string {
    name + "(" + Join(", ", arguments) + ")"
  }

  /** A word the tokenizer keeps whole and the type parser cannot mistake for a suffix. */
  predicate PlainWord(w: string) {
    w != "" && forall i :: 0 <= i < |w| ==> !IsSpace(w[i]) && w[i] !in {'(', ')', ',', '[', ']'}
  }

  predicate PlainPiece(s: string) { forall i :: 0 <= i < |s| ==> !IsSpace(s[i]) && s[i] !in {'(', ')'} }

  /** Any text without parentheses whose spaces are single ones: only its ends may be empty pieces. */
  predicate PlainModifier(pieces: seq<string>) {
    && pieces != []
    && forall i :: 0 <= i < |pieces| ==>
         PlainPiece(pieces[i]) && (0 < i < |pieces| - 1 ==> pieces[i] != "")
  }

  function LowerWords(words: seq<string>): seq<string> {
    if words == [] then [] else [Lower(words[0])] + LowerWords(words[1..])
  }

  /**
   What the list of type names must satisfy: every name is a sequence of plain
   lower-case words that does not begin with an argument mode, and no name is a
   proper token suffix of another.
   */
  ghost predicate SoundNames(names: set<seq<string>>) {
    && (forall words :: words in names ==>
          words != [] && (forall i :: 0 <= i < |words| ==> PlainWord(words[i]) && Lower(words[i]) == words[i])
          && words[0] !in ARGUMENT_MODES)
    && (forall a, k :: a in names && 0 < k < |a| ==> a[k..] !in names)
  }

  function NameTexts(names: set<seq<string>>): set<string> { set words | words in names :: Join(" ", words) }

  ghost predicate PlainType(names: set<seq<string>>, t: TypeText) {
    && t.words != [] && (forall i :: 0 <= i < |t.words| ==> PlainWord(t.words[i]))
    && LowerWords(t.words) in names
    && (t.modifier.Some? ==> PlainModifier(t.modifier.value))
  }

  ghost predicate PlainArgument(names: set<seq<string>>, a: Argument) {
    && PlainType(names, a.typ)
    && (a.mode.Some? ==> PlainWord(a.mode.value) && Lower(a.mode.value) in ARGUMENT_MODES)
    && (a.name.Some? ==> PlainWord(a.name.value))
  }

  // ----- words

  predicate Solid(w: string) { w != "" && forall i :: 0 <= i < |w| ==> !IsSpace(w[i]) }

  ghost predicate AllSolid(words: seq<string>) { forall i :: 0 <= i < |words| ==> Solid(words[i]) }

  lemma {:induction false} TokenRun(w: string, rest: string, word: string)
    requires forall i :: 0 <= i < |w| ==> !IsSpace(w[i])
    ensures Tokens(w + rest, word) == Tokens(rest, word + w)
  {
    if w == "" {
      assert w + rest == rest && word + w == word;
    } else {
      assert (w + rest)[1..] == w[1..] + rest && (word + [w[0]]) + w[1..] == word + w;
      TokenRun(w[1..], rest, word + [w[0]]);
    }
  }

  /** Splitting what was joined by single spaces gives the words back. */
  lemma {:induction false} TokensOfJoin(words: seq<string>)
    requires AllSolid(words)
    ensures Tokens(Join(" ", words), "") == words
  {
    if words == [] {
    } else if |words| == 1 {
      TokenRun(words[0], "", "");
      assert words[0] + "" == words[0] && "" + words[0] == words[0];
    } else {
      var rest := " " + Join(" ", words[1..]);
      assert Join(" ", words) == words[0] + rest;
      TokenRun(words[0], rest, "");
      assert "" + words[0] == words[0] && rest[1..] == Join(" ", words[1..]);
      TokensOfJoin(words[1..]);
      assert [words[0]] + words[1..] == words;
    }
  }

  lemma {:induction false} JoinSnoc(separator: string, words: seq<string>, last: string)
    requires words != []
    ensures Join(separator, words + [last]) == Join(separator, words) + separator + last
  {
    if |words| > 1 {
      JoinSnoc(separator, words[1..], last);
      assert (words + [last])[1..] == words[1..] + [last];
    } else {
      assert (words + [last])[1..] == [last];
    }
  }

  lemma {:induction false} LowerAppend(a: string, b: string)
    ensures Lower(a + b) == Lower(a) + Lower(b)
  {
  }

  lemma {:induction false} LowerJoin(words: seq<string>)
    ensures Lower(Join(" ", words)) == Join(" ", LowerWords(words))
  {
    if |words| > 1 {
      LowerJoin(words[1..]);
      LowerAppend(words[0], " ");
      LowerAppend(words[0] + " ", Join(" ", words[1..]));
      assert Lower(" ") == " ";
      assert LowerWords(words)[1..] == LowerWords(words[1..]);
    }
  }

  lemma {:induction false} LowerKeepsSpaces(c: char)
    ensures IsSpace(LowerChar(c)) <==> IsSpace(c)
    ensures LowerChar(c) in {'(', ')', ',', '[', ']'} <==> c in {'(', ')', ',', '[', ']'}
    ensures c in {'(', ')', ',', '[', ']'} ==> LowerChar(c) == c
  {
  }

  lemma {:induction false} LowerPlain(w: string)
    requires PlainWord(w)
    ensures PlainWord(Lower(w))
  {
    forall i | 0 <= i < |w|
      ensures !IsSpace(Lower(w)[i]) && Lower(w)[i] !in {'(', ')', ',', '[', ']'}
    {
      LowerKeepsSpaces(w[i]);
    }
  }

  // ----- one type, normalised

  /** Plain characters throughout, and something other than a space at both ends. */
  ghost predicate PlainText(s: string) {
    && s != "" && !IsSpace(s[0]) && !IsSpace(s[|s| - 1])
    && forall i :: 0 <= i < |s| ==> s[i] !in {'(', ')', ',', '[', ']'}
  }

  lemma {:induction false} JoinPlain(words: seq<string>)
    requires words != [] && forall i :: 0 <= i < |words| ==> PlainWord(words[i])
    ensures PlainText(Join(" ", words))
  {
    if |words| > 1 {
      JoinPlain(words[1..]);
      var text := words[0] + " " + Join(" ", words[1..]);
      forall i | 0 <= i < |text|
        ensures text[i] !in {'(', ')', ',', '[', ']'}
      {
        if i < |words[0]| {
          assert text[i] == words[0][i];
        } else if i > |words[0]| {
          assert text[i] == Join(" ", words[1..])[i - |words[0]| - 1];
        }
      }
    }
  }

  lemma {:induction false} StripRightSolid(s: string)
    requires s == "" || !IsSpace(s[|s| - 1])
    ensures StripRight(s) == s
  {
  }

  lemma {:induction false} StripSolid(s: string)
    requires s == "" || (!IsSpace(s[0]) && !IsSpace(s[|s| - 1]))
    ensures Strip(s) == s && (s != "" ==> Strip(" " + s) == s)
  {
    assert (" " + s)[1..] == s;
  }

  lemma {:induction false} StripOnce(s: string)
    requires s != "" && !IsSpace(s[|s| - 1])
    ensures StripArrays(s + "[]") == StripArrays(s)
  {
    var longer := s + "[]";
    assert longer[|longer| - 2..] == "[]" && longer[..|longer| - 2] == s;
    StripRightSolid(s);
  }

  lemma {:induction false} LastOf(a: string, b: string)
    requires a != ""
    ensures (a + b)[|a + b| - 1] == if b == "" then a[|a| - 1] else b[|b| - 1]
  {
  }

  lemma {:induction false} BracketsEnd(s: string, n: nat)
    requires s != "" && !IsSpace(s[|s| - 1])
    ensures s + Brackets(n) != "" && !IsSpace((s + Brackets(n))[|s + Brackets(n)| - 1])
  {
    if n == 0 {
      assert s + Brackets(0) == s;
    } else {
      LastOf(s + Brackets(n - 1), "[]");
      AppendAssociates(s, Brackets(n - 1), "[]");
    }
  }

  lemma {:induction false} NothingToStrip(s: string)
    requires s != "" && !IsSpace(s[|s| - 1]) && s[|s| - 1] != ']'
    ensures StripArrays(s) == s
  {
    StripRightSolid(s);
    assert |s| >= 2 ==> s[|s| - 2..][1] == s[|s| - 1];
    assert !EndsWith(s, "[]");
  }

  lemma {:induction false} OneBracketPair(s: string, n: nat)
    requires n > 0
    ensures s + Brackets(n) == s + Brackets(n - 1) + "[]"
  {
    AppendAssociates(s, Brackets(n - 1), "[]");
  }

  lemma {:induction false} StripBracketPair(s: string, n: nat)
    requires s != "" && !IsSpace(s[|s| - 1]) && n > 0
    ensures StripArrays(s + Brackets(n)) == StripArrays(s + Brackets(n - 1))
  {
    var shorter := s + Brackets(n - 1);
    OneBracketPair(s, n);
    BracketsEnd(s, n - 1);
    StripOnce(shorter);
  }

  lemma {:induction false} StripBrackets(s: string, n: nat)
    requires s != "" && !IsSpace(s[|s| - 1]) && s[|s| - 1] != ']'
    ensures StripArrays(s + Brackets(n)) == s
  {
    if n == 0 {
      NothingToStrip(s);
      assert s + Brackets(0) == s;
    } else {
      StripBracketPair(s, n);
      StripBrackets(s, n - 1);
    }
  }

  lemma {:induction false} BeforeAppend(s: string, c: char, rest: string)
    requires c !in s
    ensures Before(s + [c] + rest, c) == s && After(s + [c] + rest, c) == rest
  {
    if s == "" {
      assert s + [c] + rest == [c] + rest;
    } else {
      BeforeAppend(s[1..], c, rest);
      assert (s + [c] + rest)[1..] == s[1..] + [c] + rest;
    }
  }

  lemma {:induction false} DropsModifier(s: string, m: Option<string>)
    requires PlainText(s)
    ensures DropModifier(s + Enclosed(m)) == s
  {
    if m.Some? {
      var text := s + ("(" + m.value + ")");
      assert text == s + ['('] + (m.value + ")");
      BeforeAppend(s, '(', m.value + ")");
      StripRightSolid(s);
      assert text[|text| - 1] == ')' && text[|s|] == '(';
    } else {
      assert s + "" == s;
    }
  }

  lemma {:induction false} LowerBrackets(n: nat)
    ensures Lower(Brackets(n)) == Brackets(n)
  {
    if n > 0 {
      LowerBrackets(n - 1);
      LowerAppend(Brackets(n - 1), "[]");
      assert Lower("[]") == "[]";
    }
  }

  function LowerOption(o: Option<string>): Option<string> { if o.Some? then Some(Lower(o.value)) else None }

  lemma {:induction false} LowerSuffix(t: TypeText)
    ensures Lower(Suffix(t)) == Enclosed(LowerOption(ModifierText(t))) + Brackets(t.arrays)
  {
    LowerBrackets(t.arrays);
    LowerAppend(Enclosed(ModifierText(t)), Brackets(t.arrays));
    if t.modifier.Some? {
      var text := ModifierText(t).value;
      LowerAppend("(" + text, ")");
      LowerAppend("(", text);
      assert Lower("(") == "(" && Lower(")") == ")";
    }
  }

  lemma {:induction false} SuffixEnds(t: TypeText)
    ensures Suffix(t) != "" ==> !IsSpace(Suffix(t)[|Suffix(t)| - 1])
  {
    BracketsSolid(t.arrays);
  }

  lemma {:induction false} GluedSolid(first: string, pieces: seq<string>, end: string)
    requires pieces != [] && (forall i :: 0 <= i < |pieces| ==> PlainPiece(pieces[i]))
    requires forall i :: 0 <= i < |pieces| - 1 ==> first == "" || i > 0 ==> pieces[i] != ""
    requires (first == "" || Solid(first)) && Solid(end)
    ensures AllSolid(Glued(first, pieces, end))
    decreases |pieces|
  {
    assert PlainPiece(pieces[0]);
    if |pieces| == 1 {
      assert Solid(first + pieces[0] + end);
    } else {
      assert Solid(first + pieces[0]);
      GluedSolid("", pieces[1..], end);
    }
  }

  lemma {:induction false} JoinGlued(first: string, pieces: seq<string>, end: string)
    requires pieces != []
    ensures Join(" ", Glued(first, pieces, end)) == first + Join(" ", pieces) + end && Glued(first, pieces, end) != []
    decreases |pieces|
  {
    if |pieces| > 1 {
      JoinGlued("", pieces[1..], end);
      assert ([first + pieces[0]] + Glued("", pieces[1..], end))[1..] == Glued("", pieces[1..], end);
      assert "" + Join(" ", pieces[1..]) + end == Join(" ", pieces[1..]) + end;
    }
  }

  /** The tokens that end a type: solid, and joined the last word with its suffix. */
  lemma {:induction false} LastTokensOf(last: string, t: TypeText)
    requires PlainWord(last) && (t.modifier.Some? ==> PlainModifier(t.modifier.value))
    ensures AllSolid(LastTokens(last, t)) && LastTokens(last, t) != []
    ensures Join(" ", LastTokens(last, t)) == last + Suffix(t)
  {
    BracketsSolid(t.arrays);
    if t.modifier.Some? {
      GluedSolid(last + "(", t.modifier.value, ")" + Brackets(t.arrays));
      JoinGlued(last + "(", t.modifier.value, ")" + Brackets(t.arrays));
      var text := ModifierText(t).value;
      assert last + "(" + text + (")" + Brackets(t.arrays)) == last + (("(" + text + ")") + Brackets(t.arrays));
    } else {
      assert "" + Brackets(t.arrays) == Brackets(t.arrays);
    }
  }

  lemma {:induction false} JoinFirst(separator: string, first: string, rest: seq<string>)
    requires rest != []
    ensures Join(separator, [first] + rest) == first + separator + Join(separator, rest)
  {
    assert ([first] + rest)[1..] == rest;
  }

  lemma {:induction false} JoinAppend(separator: string, a: seq<string>, b: seq<string>)
    requires b != []
    ensures Join(separator, a + b) ==
            if a == [] then Join(separator, b) else Join(separator, a) + separator + Join(separator, b)
  {
    if a == [] {
      assert a + b == b;
    } else {
      assert a + b == [a[0]] + (a[1..] + b) && a == [a[0]] + a[1..];
      JoinAppend(separator, a[1..], b);
      JoinFirst(separator, a[0], a[1..] + b);
      if |a| > 1 {
        JoinFirst(separator, a[0], a[1..]);
        AppendAssociates(a[0] + separator, Join(separator, a[1..]) + separator, Join(separator, b));
        AppendAssociates(a[0] + separator, Join(separator, a[1..]), separator);
      }
    }
  }

  lemma {:induction false} BracketsSolid(n: nat)
    ensures forall i :: 0 <= i < |Brackets(n)| ==> Brackets(n)[i] in {'[', ']'}
  {
    if n > 0 {
      BracketsSolid(n - 1);
    }
  }

  lemma {:induction false} JoinSuffixed(init: seq<string>, last: string, tokens: seq<string>, suffix: string)
    requires tokens != [] && Join(" ", tokens) == last + suffix
    ensures Join(" ", init + tokens) == Join(" ", init + [last]) + suffix
  {
    JoinAppend(" ", init, tokens);
    JoinAppend(" ", init, [last]);
    AppendAssociates(Join(" ", init) + " ", last, suffix);
  }

  /** A type's tokens after any others: the same words, then the suffix. */
  lemma {:induction false} JoinPrinted(lead: seq<string>, t: TypeText)
    requires Printable(t) && (t.modifier.Some? ==> PlainModifier(t.modifier.value))
    requires PlainWord(t.words[|t.words| - 1])
    ensures Join(" ", lead + TypeTokens(t)) == Join(" ", lead + t.words) + Suffix(t)
  {
    var init, last := t.words[..|t.words| - 1], t.words[|t.words| - 1];
    InitLast(t.words);
    LastTokensOf(last, t);
    AppendAssociates(lead, init, LastTokens(last, t));
    AppendAssociates(lead, init, [last]);
    JoinSuffixed(lead + init, last, LastTokens(last, t), Suffix(t));
  }

  /** The words before a type's suffix are what normalisation leaves. */
  lemma {:induction false} NormalizePrinted(lead: seq<string>, t: TypeText)
    requires Printable(t) && (t.modifier.Some? ==> PlainModifier(t.modifier.value))
    requires forall i :: 0 <= i < |lead| ==> PlainWord(lead[i])
    requires forall i :: 0 <= i < |t.words| ==> PlainWord(t.words[i])
    ensures AllSolid(lead + TypeTokens(t))
    ensures Join(" ", lead + TypeTokens(t)) == Join(" ", lead + t.words) + Suffix(t)
    ensures NormalizeType(Join(" ", lead + TypeTokens(t))) == Join(" ", LowerWords(lead + t.words))
  {
    var words, tokens := lead + t.words, lead + TypeTokens(t);
    LastTokensOf(t.words[|t.words| - 1], t);
    JoinPrinted(lead, t);
    TokensOfJoin(tokens);
    LowerAppend(Join(" ", words), Suffix(t));
    LowerJoin(words);
    LowerSuffix(t);
    NormalizeLowered(words, LowerOption(ModifierText(t)), t.arrays);
  }

  lemma {:induction false} NormalizeLowered(words: seq<string>, modifier: Option<string>, arrays: nat)
    requires words != [] && forall i :: 0 <= i < |words| ==> PlainWord(words[i])
    ensures var base := Join(" ", LowerWords(words));
            DropModifier(StripArrays(base + (Enclosed(modifier) + Brackets(arrays)))) == base
  {
    var base := Join(" ", LowerWords(words));
    LowerWordsPlain(words);
    JoinPlain(LowerWords(words));
    AppendAssociates(base, Enclosed(modifier), Brackets(arrays));
    StripBrackets(base + Enclosed(modifier), arrays);
    DropsModifier(base, modifier);
  }

  lemma {:induction false} LowerWordsPlain(words: seq<string>)
    requires forall i :: 0 <= i < |words| ==> PlainWord(words[i])
    ensures |LowerWords(words)| == |words|
    ensures forall i :: 0 <= i < |words| ==> PlainWord(LowerWords(words)[i]) && LowerWords(words)[i] == Lower(words[i])
  {
    if words != [] {
      LowerPlain(words[0]);
      LowerWordsPlain(words[1..]);
    }
  }

  lemma {:induction false} NameTextsExact(names: set<seq<string>>, words: seq<string>)
    requires SoundNames(names) && AllSolid(words)
    ensures Join(" ", words) in NameTexts(names) <==> words in names
  {
    if Join(" ", words) in NameTexts(names) {
      var found :| found in names && Join(" ", found) == Join(" ", words);
      assert AllSolid(found);
      TokensOfJoin(found);
      TokensOfJoin(words);
    }
  }

  lemma {:induction false} KnownOnItsOwn(names: set<seq<string>>, t: TypeText)
    requires SoundNames(names) && PlainType(names, t)
    ensures NormalizeType(PrintType(t)) in NameTexts(names)
  {
    assert [] + TypeTokens(t) == TypeTokens(t) && [] + t.words == t.words;
    NormalizePrinted([], t);
  }

  /** A parameter name in front of a known type never makes another known type. */
  lemma {:induction false} UnknownWithName(names: set<seq<string>>, name: string, t: TypeText)
    requires SoundNames(names) && PlainType(names, t) && PlainWord(name)
    ensures NormalizeType(Join(" ", [name] + TypeTokens(t))) !in NameTexts(names)
  {
    NormalizePrinted([name], t);
    var words := LowerWords([name] + t.words);
    LowerWordsPlain([name] + t.words);
    assert AllSolid(words);
    NameTextsExact(names, words);
    assert ([name] + t.words)[1..] == t.words;
    assert words[1..] == LowerWords(t.words);
  }

  lemma {:induction false} ModeIsDropped(names: set<seq<string>>, a: Argument)
    requires SoundNames(names) && PlainArgument(names, a)
    ensures var tokens := AfterMode(OptionalWord(a.mode) + OptionalWord(a.name) + TypeTokens(a.typ));
            tokens == TypeTokens(a.typ) || (a.name.Some? && tokens == [a.name.value] + TypeTokens(a.typ))
  {
    var rest := TypeTokens(a.typ);
    var named := OptionalWord(a.name) + rest;
    AppendAssociates(OptionalWord(a.mode), OptionalWord(a.name), rest);
    OptionalFirst(a.name, rest);
    OptionalFirst(a.mode, named);
    if a.mode.Some? {
      DropFirst(a.mode.value, named);
    } else if a.name.Some? {
      DropFirst(a.name.value, rest);
    } else if |rest| >= 2 {
      FirstWordIsNoMode(names, a.typ);
    }
  }

  lemma {:induction false} OptionalFirst(o: Option<string>, rest: seq<string>)
    ensures OptionalWord(o) + rest == if o.Some? then [o.value] + rest else rest
  {
  }

  lemma {:induction false} DropFirst(word: string, rest: seq<string>)
    requires rest != []
    ensures AfterMode([word] + rest) == if Lower(word) in ARGUMENT_MODES then rest else [word] + rest
  {
    assert ([word] + rest)[1..] == rest;
  }

  lemma {:induction false} LeadIsPlain(names: set<seq<string>>, a: Argument)
    requires PlainArgument(names, a)
    ensures var lead := OptionalWord(a.mode) + OptionalWord(a.name);
            forall i :: 0 <= i < |lead| ==> PlainWord(lead[i])
  {
  }

  /** Whatever mode and name are printed before it, a known type is recovered. */
  lemma {:induction false} ArgumentParsesBack(names: set<seq<string>>, a: Argument)
    requires SoundNames(names) && PlainArgument(names, a)
    ensures ArgumentType(NameTexts(names), PrintArgument(a)) == Some(PrintType(a.typ))
  {
    var all := OptionalWord(a.mode) + OptionalWord(a.name) + TypeTokens(a.typ);
    LeadIsPlain(names, a);
    NormalizePrinted(OptionalWord(a.mode) + OptionalWord(a.name), a.typ);
    TokensOfJoin(all);
    ModeIsDropped(names, a);
    KnownOnItsOwn(names, a.typ);
    if AfterMode(all) != TypeTokens(a.typ) {
      UnknownWithName(names, a.name.value, a.typ);
      assert AfterMode(all)[1..] == TypeTokens(a.typ);
    }
  }

  lemma {:induction false} FirstWordIsNoMode(names: set<seq<string>>, t: TypeText)
    requires SoundNames(names) && PlainType(names, t)
    ensures Lower(TypeTokens(t)[0]) !in ARGUMENT_MODES
  {
    LowerWordsPlain(t.words);
    if |t.words| > 1 {
      assert TypeTokens(t)[0] == t.words[0];
    } else {
      FirstTokenIsNoMode(t.words[0], t);
      assert TypeTokens(t) == LastTokens(t.words[0], t);
    }
  }

  lemma {:induction false} NoMode(w: string, i: nat)
    requires i < |w| && w[i] in {'(', '[', ']'}
    ensures Lower(w) !in ARGUMENT_MODES
  {
    assert Lower(w)[i] == w[i];
    assert forall m, k :: m in ARGUMENT_MODES && 0 <= k < |m| ==> 'a' <= m[k] <= 'z';
  }

  lemma {:induction false} FirstGlued(first: string, pieces: seq<string>, end: string)
    requires pieces != []
    ensures first <= Glued(first, pieces, end)[0]
  {
  }

  lemma {:induction false} FirstTokenIsNoMode(last: string, t: TypeText)
    requires t.modifier != Some([]) && Lower(last) !in ARGUMENT_MODES
    ensures Lower(LastTokens(last, t)[0]) !in ARGUMENT_MODES
  {
    if t.modifier.Some? {
      FirstGlued(last + "(", t.modifier.value, ")" + Brackets(t.arrays));
      assert (last + "(")[|last|] == '(';
      NoMode(LastTokens(last, t)[0], |last|);
    } else if t.arrays > 0 {
      BracketsSolid(t.arrays);
      NoMode(last + Brackets(t.arrays), |last|);
    } else {
      assert last + Brackets(0) == last;
    }
  }

  // ----- the argument list

  /** The depth after `s`, unless a comma inside it stands at depth zero. */
  function Scan(s: string, depth: int): Option<int> {
    if s == "" then Some(depth)
    else if s[0] == ',' && depth == 0 then None
    else Scan(s[1..], depth + Nesting(s[0]))
  }

  lemma {:induction false} ScanAppend(a: string, b: string, depth: int)
    requires Scan(a, depth).Some?
    ensures Scan(a + b, depth) == Scan(b, Scan(a, depth).value)
  {
    if a == "" {
      assert a + b == b;
    } else {
      ScanAppend(a[1..], b, depth + Nesting(a[0]));
      assert (a + b)[1..] == a[1..] + b;
    }
  }

  lemma {:induction false} ScanLevel(s: string, depth: int)
    requires forall i :: 0 <= i < |s| ==> s[i] !in {'(', ')'} && (s[i] == ',' ==> depth != 0)
    ensures Scan(s, depth) == Some(depth)
  {
    if s != "" {
      ScanLevel(s[1..], depth);
    }
  }

  lemma {:induction false} JoinedPieces(pieces: seq<string>)
    requires forall i :: 0 <= i < |pieces| ==> PlainPiece(pieces[i])
    ensures forall i :: 0 <= i < |Join(" ", pieces)| ==> Join(" ", pieces)[i] !in {'(', ')'}
  {
    if |pieces| > 1 {
      JoinedPieces(pieces[1..]);
      var text, rest := Join(" ", pieces), Join(" ", pieces[1..]);
      forall i | 0 <= i < |text|
        ensures text[i] !in {'(', ')'}
      {
        if i < |pieces[0]| {
          assert text[i] == pieces[0][i];
        } else if i > |pieces[0]| {
          assert text[i] == rest[i - |pieces[0]| - 1];
        }
      }
    }
  }

  lemma {:induction false} ScanEnclosed(text: string)
    requires forall i :: 0 <= i < |text| ==> text[i] !in {'(', ')'}
    ensures Scan("(" + text + ")", 0) == Some(0)
  {
    ScanLevel(text, 1);
    assert ("(" + text)[1..] == text;
    assert Scan("(" + text, 0) == Some(1);
    ScanAppend("(" + text, ")", 0);
    assert ")"[1..] == "";
    assert Scan(")", 1) == Scan("", 0);
  }

  lemma {:induction false} ScanSuffix(t: TypeText)
    requires t.modifier.Some? ==> PlainModifier(t.modifier.value)
    ensures Scan(Suffix(t), 0) == Some(0)
  {
    BracketsSolid(t.arrays);
    ScanLevel(Brackets(t.arrays), 0);
    if t.modifier.Some? {
      JoinedPieces(t.modifier.value);
      ScanEnclosed(ModifierText(t).value);
    } else {
      assert Scan("", 0) == Some(0);
    }
    ScanAppend(Enclosed(ModifierText(t)), Brackets(t.arrays), 0);
  }

  /** A piece that splitting leaves alone. */
  ghost predicate Clean(s: string) {
    s != "" && !IsSpace(s[0]) && !IsSpace(s[|s| - 1]) && Scan(s, 0) == Some(0)
  }

  lemma {:induction false} GluedIsClean(base: string, suffix: string)
    requires Clean(base) && Scan(suffix, 0) == Some(0) && (suffix != "" ==> !IsSpace(suffix[|suffix| - 1]))
    ensures Clean(base + suffix)
  {
    ScanAppend(base, suffix, 0);
    LastOf(base, suffix);
  }

  lemma {:induction false} PrintedIsClean(lead: seq<string>, t: TypeText)
    requires Printable(t) && (t.modifier.Some? ==> PlainModifier(t.modifier.value))
    requires forall i :: 0 <= i < |lead| ==> PlainWord(lead[i])
    requires forall i :: 0 <= i < |t.words| ==> PlainWord(t.words[i])
    ensures Clean(Join(" ", lead + TypeTokens(t)))
  {
    var base := Join(" ", lead + t.words);
    NormalizePrinted(lead, t);
    JoinPlain(lead + t.words);
    ScanLevel(base, 0);
    ScanSuffix(t);
    SuffixEnds(t);
    GluedIsClean(base, Suffix(t));
  }

  lemma {:induction false} PiecesRun(a: string, rest: string, depth: int, current: string)
    requires Scan(a, depth).Some?
    ensures Pieces(a + rest, depth, current) == Pieces(rest, Scan(a, depth).value, current + a)
  {
    if a == "" {
      assert a + rest == rest && current + a == current;
    } else {
      PiecesRun(a[1..], rest, depth + Nesting(a[0]), current + [a[0]]);
      assert (a + rest)[1..] == a[1..] + rest && (current + [a[0]]) + a[1..] == current + a;
    }
  }

  lemma {:induction false} LeadIsStripped(lead: string, part: string)
    requires lead in {"", " "} && Clean(part)
    ensures Scan(lead + part, 0) == Some(0) && Strip(lead + part) == part
  {
    ScanLevel(lead, 0);
    ScanAppend(lead, part, 0);
    StripSolid(part);
    assert lead == "" ==> lead + part == part;
  }

  lemma {:induction false} LastPiece(lead: string, part: string)
    requires lead in {"", " "} && Clean(part)
    ensures Map(Pieces(lead + part, 0, ""), Stripping()) == [part]
  {
    LeadIsStripped(lead, part);
    PieceStep(lead + part, "");
    assert Map([lead + part], Stripping()) == [part];
  }

  lemma {:induction false} FirstPiece(lead: string, part: string, rest: string)
    requires lead in {"", " "} && Clean(part)
    ensures Map(Pieces(lead + part + ("," + rest), 0, ""), Stripping()) ==
              [part] + Map(Pieces(rest, 0, ""), Stripping())
  {
    LeadIsStripped(lead, part);
    PieceStep(lead + part, rest);
    MapCons(lead + part, Pieces(rest, 0, ""));
  }

  /** `lead` is what stands between a comma and the next argument. */
  lemma {:induction false} PiecesOfJoin(lead: string, parts: seq<string>)
    requires lead in {"", " "} && parts != [] && forall i :: 0 <= i < |parts| ==> Clean(parts[i])
    ensures Map(Pieces(lead + Join(", ", parts), 0, ""), Stripping()) == parts
    decreases |parts|
  {
    if |parts| == 1 {
      LastPiece(lead, parts[0]);
    } else {
      JoinSplits(lead, parts);
      FirstPiece(lead, parts[0], " " + Join(", ", parts[1..]));
      PiecesOfJoin(" ", parts[1..]);
      assert [parts[0]] + parts[1..] == parts;
    }
  }

  lemma {:induction false} JoinSplits(lead: string, parts: seq<string>)
    requires |parts| > 1
    ensures lead + Join(", ", parts) == lead + parts[0] + ("," + (" " + Join(", ", parts[1..])))
  {
    assert ", " == "," + " ";
  }

  lemma {:induction false} PieceStep(piece: string, rest: string)
    requires Scan(piece, 0) == Some(0)
    ensures Pieces(piece + ("," + rest), 0, "") == [piece] + Pieces(rest, 0, "")
    ensures Pieces(piece, 0, "") == [piece]
  {
    PiecesRun(piece, "," + rest, 0, "");
    PiecesRun(piece, "", 0, "");
    assert "" + piece == piece && piece + "" == piece && ("," + rest)[1..] == rest;
  }

  lemma {:induction false} MapCons(first: string, rest: seq<string>)
    ensures Map([first] + rest, Stripping()) == [Strip(first)] + Map(rest, Stripping())
  {
  }

  /** Splitting a printed argument list at its top-level commas gives the arguments back. */
  lemma {:induction false} SplitOfJoin(parts: seq<string>)
    requires parts != [] && forall i :: 0 <= i < |parts| ==> Clean(parts[i])
    ensures SplitTopLevel(Join(", ", parts)) == parts
  {
    PiecesOfJoin("", parts);
    assert "" + Join(", ", parts) == Join(", ", parts);
    FilterAll(parts, Nonempty());
  }

  function PrintArguments(arguments: seq<Argument>): seq<string>
    requires forall i :: 0 <= i < |arguments| ==> Printable(arguments[i].typ)
  {
    seq(|arguments|, i requires 0 <= i < |arguments| => PrintArgument(arguments[i]))
  }

  function PrintTypes(arguments: seq<Argument>): seq<string>
    requires forall i :: 0 <= i < |arguments| ==> Printable(arguments[i].typ)
  {
    seq(|arguments|, i requires 0 <= i < |arguments| => PrintType(arguments[i].typ))
  }

  ghost predicate PlainArguments(names: set<seq<string>>, arguments: seq<Argument>) {
    forall i :: 0 <= i < |arguments| ==> PlainArgument(names, arguments[i])
  }

  lemma {:induction false} PrintSnoc(init: seq<Argument>, last: Argument)
    requires Printable(last.typ) && forall i :: 0 <= i < |init| ==> Printable(init[i].typ)
    ensures PrintArguments(init + [last]) == PrintArguments(init) + [PrintArgument(last)]
    ensures PrintTypes(init + [last]) == PrintTypes(init) + [PrintType(last.typ)]
  {
  }

  lemma {:induction false} OneMoreParsesBack(known: set<string>, init: seq<Argument>, last: Argument)
    requires Printable(last.typ) && forall i :: 0 <= i < |init| ==> Printable(init[i].typ)
    requires ArgumentTypes(known, PrintArguments(init)) == Some(PrintTypes(init))
    requires ArgumentType(known, PrintArgument(last)) == Some(PrintType(last.typ))
    ensures ArgumentTypes(known, PrintArguments(init + [last])) == Some(PrintTypes(init + [last]))
  {
    PrintSnoc(init, last);
    assert PrintArguments(init + [last])[..|init|] == PrintArguments(init);
  }

  lemma {:induction false} PlainSplits(
      names: set<seq<string>>, init: seq<Argument>, last: Argument, arguments: seq<Argument>)
    requires arguments != [] && init == arguments[..|arguments| - 1] && last == arguments[|arguments| - 1]
    requires PlainArguments(names, arguments)
    ensures PlainArguments(names, init) && PlainArgument(names, last) && init + [last] == arguments
  {
  }

  lemma {:induction false} ArgumentsParseBack(names: set<seq<string>>, arguments: seq<Argument>)
    requires SoundNames(names) && PlainArguments(names, arguments)
    ensures ArgumentTypes(NameTexts(names), PrintArguments(arguments)) == Some(PrintTypes(arguments))
  {
    if arguments == [] {
      assert PrintArguments(arguments) == [] && PrintTypes(arguments) == [];
    } else {
      var init, last := arguments[..|arguments| - 1], arguments[|arguments| - 1];
      PlainSplits(names, init, last, arguments);
      ArgumentsParseBack(names, init);
      ArgumentParsesBack(names, last);
      OneMoreParsesBack(NameTexts(names), init, last);
    }
  }

  lemma {:induction false} ArgumentsAreClean(names: set<seq<string>>, arguments: seq<Argument>)
    requires PlainArguments(names, arguments)
    ensures forall i :: 0 <= i < |arguments| ==> Clean(PrintArguments(arguments)[i]) && Clean(PrintTypes(arguments)[i])
  {
    forall i | 0 <= i < |arguments|
      ensures Clean(PrintArguments(arguments)[i]) && Clean(PrintTypes(arguments)[i])
    {
      var a := arguments[i];
      LeadIsPlain(names, a);
      PrintedIsClean(OptionalWord(a.mode) + OptionalWord(a.name), a.typ);
      PrintedIsClean([], a.typ);
      assert [] + TypeTokens(a.typ) == TypeTokens(a.typ);
    }
  }

  lemma {:induction false} JoinEnds(parts: seq<string>)
    requires parts != [] && forall i :: 0 <= i < |parts| ==> Clean(parts[i])
    ensures var text := Join(", ", parts); text != "" && !IsSpace(text[0]) && !IsSpace(text[|text| - 1])
  {
    if |parts| > 1 {
      JoinEnds(parts[1..]);
    }
  }

  /** A function name as a catalog prints it. */
  ghost predicate PlainName(name: string) {
    name != "" && !IsSpace(name[0]) && !IsSpace(name[|name| - 1]) && '(' !in name
  }

  lemma {:induction false} SignatureShape(name: string, inner: string)
    requires PlainName(name)
    ensures var text := name + "(" + inner + ")";
            && Strip(text) == text && text != "" && text[|text| - 1] == ')' && '(' in text
            && Strip(Before(text, '(')) == name && After(text[..|text| - 1], '(') == inner
  {
    var text := name + "(" + inner + ")";
    assert text[0] == name[0] && text[|name|] == '(';
    StripSolid(text);
    StripSolid(name);
    BeforeAppend(name, '(', inner + ")");
    assert text == name + ['('] + (inner + ")");
    BeforeAppend(name, '(', inner);
    assert text[..|text| - 1] == name + ['('] + inner;
  }

  /** The parser undoes the printer: name and argument types come back, modes and names do not. */
  lemma {:induction false} SignatureParsesBack(names: set<seq<string>>, name: string, arguments: seq<Argument>)
    requires SoundNames(names) && PlainName(name) && PlainArguments(names, arguments)
    ensures ParseSignature(NameTexts(names), PrintSignature(name, PrintArguments(arguments))) ==
            Success((name, Join(", ", PrintTypes(arguments))))
  {
    var known, parts := NameTexts(names), PrintArguments(arguments);
    ArgumentsAreClean(names, arguments);
    if arguments == [] {
      ParsesAs(known, name, "");
    } else {
      JoinEnds(parts);
      StripSolid(Join(", ", parts));
      SplitOfJoin(parts);
      ArgumentsParseBack(names, arguments);
      ParsesAs(known, name, Join(", ", parts));
    }
  }

  lemma {:induction false} ParsesAs(known: set<string>, name: string, inner: string)
    requires PlainName(name) && Strip(inner) == inner
    ensures ParseSignature(known, name + "(" + inner + ")") ==
            if inner == "" then Success((name, ""))
            else
              var types := ArgumentTypes(known, SplitTopLevel(inner));
              if types.None? then Failure(UnparseableSignature(name + "(" + inner + ")"))
              else Success((name, Join(", ", types.value)))
  {
    SignatureShape(name, inner);
  }

  lemma {:induction false} IdentityNamesArguments(schema: string, name: string, s: string, t: string)
    requires FunctionIdentity(schema, name, s) == FunctionIdentity(schema, name, t)
    ensures s == t
  {
    var prefix := "function:" + schema + "." + name + "(";
    assert FunctionIdentity(schema, name, s) == prefix + s + ")"
           && FunctionIdentity(schema, name, t) == prefix + t + ")";
    assert (prefix + s + ")")[|prefix|..|prefix| + |s|] == s && (prefix + t + ")")[|prefix|..|prefix| + |t|] == t;
    assert |s| == |t|;
  }

  /** Two signatures of one function name get one identity exactly when their argument types agree. */
  lemma {:induction false} IdentityIsTheTypeList(
      names: set<seq<string>>, schema: string, name: string, a: seq<Argument>, b: seq<Argument>)
    requires SoundNames(names) && PlainName(name) && PlainArguments(names, a) && PlainArguments(names, b)
    ensures var known := NameTexts(names);
            var x := ParseSignature(known, PrintSignature(name, PrintArguments(a)));
            var y := ParseSignature(known, PrintSignature(name, PrintArguments(b)));
            && x.Success? && y.Success?
            && (FunctionIdentity(schema, x.value.0, x.value.1) == FunctionIdentity(schema, y.value.0, y.value.1)
                <==> PrintTypes(a) == PrintTypes(b))
  {
    SignatureParsesBack(names, name, a);
    SignatureParsesBack(names, name, b);
    var s, t := Join(", ", PrintTypes(a)), Join(", ", PrintTypes(b));
    if FunctionIdentity(schema, name, s) == FunctionIdentity(schema, name, t) {
      IdentityNamesArguments(schema, name, s, t);
      SameJoinSameTypes(names, a, b);
    }
  }

  lemma {:induction false} SameJoinSameTypes(names: set<seq<string>>, a: seq<Argument>, b: seq<Argument>)
    requires PlainArguments(names, a) && PlainArguments(names, b)
    requires Join(", ", PrintTypes(a)) == Join(", ", PrintTypes(b))
    ensures PrintTypes(a) == PrintTypes(b)
  {
    ArgumentsAreClean(names, a);
    ArgumentsAreClean(names, b);
    if a != [] {
      JoinEnds(PrintTypes(a));
    }
    if b != [] {
      JoinEnds(PrintTypes(b));
    }
    if a != [] && b != [] {
      SplitOfJoin(PrintTypes(a));
      SplitOfJoin(PrintTypes(b));
    }
  }

  // ----- the list of type names the parser is written with

  const SINGLE_WORD_TYPES: set<string> := {
    "bigint", "boolean", "bytea", "character", "date", "inet", "integer", "interval", "json", "jsonb", "money",
    "name", "numeric", "oid", "real", "record", "smallint", "text", "uuid", "void", "xml"}

  const MULTI_WORD_TYPES: set<seq<string>> := {
    ["character", "varying"], ["double", "precision"],
    ["time", "with", "time", "zone"], ["time", "without", "time", "zone"],
    ["timestamp", "with", "time", "zone"], ["timestamp", "without", "time", "zone"]}

  function TypeNames(single: set<string>, multi: set<seq<string>>): set<seq<string>> {
    (set word | word in single :: [word]) + multi
  }

  function KnownTypes(): set<seq<string>> { TypeNames(SINGLE_WORD_TYPES, MULTI_WORD_TYPES) }

  predicate LowerCaseWord(w: string) { w != "" && forall i :: 0 <= i < |w| ==> 'a' <= w[i] <= 'z' }

  ghost predicate SingleLower(single: set<string>) { forall w :: w in single ==> LowerCaseWord(w) }

  ghost predicate SingleSound(single: set<string>) {
    SingleLower(single) && forall w :: w in single ==> w !in ARGUMENT_MODES
  }

  ghost predicate MultiLower(multi: set<seq<string>>) {
    forall words, i :: words in multi && 0 <= i < |words| ==> LowerCaseWord(words[i])
  }

  ghost predicate MultiSound(multi: set<seq<string>>) {
    MultiLower(multi) && forall words :: words in multi ==> words != [] && words[0] !in ARGUMENT_MODES
  }

  ghost predicate SuffixFree(single: set<string>, multi: set<seq<string>>) {
    && (forall a, k :: a in multi && 0 < k < |a| ==> a[k..] !in multi)
    && (forall a :: a in multi && a != [] ==> a[|a| - 1] !in single)
  }

  lemma {:induction false} LowerCaseIsPlain(w: string)
    requires LowerCaseWord(w)
    ensures PlainWord(w) && Lower(w) == w
  {
  }

  lemma {:induction false} SoundTogether(single: set<string>, multi: set<seq<string>>)
    requires SingleSound(single) && MultiSound(multi) && SuffixFree(single, multi)
    ensures SoundNames(TypeNames(single, multi))
  {
    forall words, i | words in TypeNames(single, multi) && 0 <= i < |words|
      ensures PlainWord(words[i]) && Lower(words[i]) == words[i]
    {
      LowerCaseIsPlain(words[i]);
    }
    forall a, k | a in TypeNames(single, multi) && 0 < k < |a|
      ensures a[k..] !in TypeNames(single, multi)
    {
      assert |a[k..]| == 1 ==> a[k..][0] == a[|a| - 1];
    }
  }

  /** The names in use meet what the round trip asks of them. */
  lemma {:induction false} KnownTypesAreSound()
    ensures SoundNames(KnownTypes())
  {
    SingleWords();
    MultiWords();
    NoSuffixes();
    SoundTogether(SINGLE_WORD_TYPES, MULTI_WORD_TYPES);
  }

  lemma {:induction false} LowerTogether(a: set<string>, b: set<string>)
    requires SingleLower(a) && SingleLower(b)
    ensures SingleLower(a + b)
  {
  }

  lemma {:induction false} FirstWordsLower()
    ensures SingleLower({"bigint", "boolean", "bytea", "character", "date", "inet", "integer"})
  {
  }

  lemma {:induction false} MiddleWordsLower()
    ensures SingleLower({"interval", "json", "jsonb", "money", "name", "numeric", "oid"})
  {
  }

  lemma {:induction false} LastWordsLower()
    ensures SingleLower({"real", "record", "smallint", "text", "uuid", "void", "xml"})
  {
  }

  lemma {:induction false} SingleWordsLower()
    ensures SingleLower(SINGLE_WORD_TYPES)
  {
    FirstWordsLower();
    MiddleWordsLower();
    LastWordsLower();
    var first := {"bigint", "boolean", "bytea", "character", "date", "inet", "integer"};
    var middle := {"interval", "json", "jsonb", "money", "name", "numeric", "oid"};
    var last := {"real", "record", "smallint", "text", "uuid", "void", "xml"};
    LowerTogether(first, middle);
    LowerTogether(first + middle, last);
    assert SINGLE_WORD_TYPES == first + middle + last;
  }

  lemma {:induction false} SingleWords()
    ensures SingleSound(SINGLE_WORD_TYPES)
  {
    SingleWordsLower();
  }

  lemma {:induction false} MultiWordsLower()
    ensures MultiLower(MULTI_WORD_TYPES)
  {
  }

  lemma {:induction false} MultiWords()
    ensures MultiSound(MULTI_WORD_TYPES)
  {
    MultiWordsLower();
  }

  lemma {:induction false} NoSuffixes()
    ensures SuffixFree(SINGLE_WORD_TYPES, MULTI_WORD_TYPES)
  {
    assert "varying" !in SINGLE_WORD_TYPES && "precision" !in SINGLE_WORD_TYPES && "zone" !in SINGLE_WORD_TYPES;
  }
}
