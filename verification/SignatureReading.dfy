/**
 What the signature parser reads and what it refuses (app/privilege_manifest.py),
 for every text: where the arguments are cut, when one is a known type, and when
 the whole is unparseable.
 */
module SignatureReading {
  import opened Collections
  import opened PrivilegeManifest
  import opened Signatures

  // ----- where the arguments are cut

  /** Opening less closing parentheses. */
  ghost function Depth(text: string): int {
    if text == "" then 0
    else
      var last := text[|text| - 1];
      Depth(text[..|text| - 1]) + if last == '(' then 1 else if last == ')' then -1 else 0
  }

  /** A comma with as many closing as opening parentheses before it. */
  ghost predicate IsCut(text: string, i: nat) { i < |text| && text[i] == ',' && Depth(text[..i]) == 0 }

  ghost function PieceStart(start: nat, cuts: seq<nat>, j: nat): nat {
    if 0 < j <= |cuts| then cuts[j - 1] + 1 else start
  }

  ghost function PieceEnd(text: string, cuts: seq<nat>, j: nat): nat { if j < |cuts| then cuts[j] else |text| }

  /** Each piece lies between two neighbouring cuts; the first begins at `start`. */
  ghost predicate PiecesBetween(text: string, start: nat, cuts: seq<nat>, pieces: seq<string>) {
    && |pieces| == |cuts| + 1
    && forall j :: 0 <= j < |pieces| ==>
         && PieceStart(start, cuts, j) <= PieceEnd(text, cuts, j) <= |text|
         && pieces[j] == text[PieceStart(start, cuts, j)..PieceEnd(text, cuts, j)]
  }

  lemma {:induction false} PiecesFrom(text: string, start: nat, k: nat) returns (cuts: seq<nat>)
    requires start <= k <= |text|
    ensures Rising(cuts) && forall i: nat :: i in cuts <==> k <= i && IsCut(text, i)
    ensures PiecesBetween(text, start, cuts, Pieces(text[k..], Depth(text[..k]), text[start..k]))
    decreases |text| - k
  {
    if k == |text| {
      cuts := [];
      assert text[k..] == "";
    } else {
      assert text[k..][1..] == text[k + 1..] && text[..k + 1][..k] == text[..k];
      if IsCut(text, k) {
        var later := PiecesFrom(text, k + 1, k + 1);
        cuts := [k] + later;
        CutFirst(text, start, k, later, Pieces(text[k + 1..], Depth(text[..k + 1]), text[k + 1..k + 1]));
        assert forall i: nat :: i in cuts <==> i == k || i in later;
        assert text[k + 1..k + 1] == "";
      } else {
        cuts := PiecesFrom(text, start, k + 1);
        assert text[start..k] + [text[k]] == text[start..k + 1];
      }
    }
  }

  lemma {:induction false} CutFirst(text: string, start: nat, k: nat, later: seq<nat>, pieces: seq<string>)
    requires start <= k < |text| && Rising(later) && PiecesBetween(text, k + 1, later, pieces)
    requires forall i: nat :: i in later ==> k + 1 <= i
    ensures Rising([k] + later) && PiecesBetween(text, start, [k] + later, [text[start..k]] + pieces)
  {
    var cuts, all := [k] + later, [text[start..k]] + pieces;
    assert forall j :: 0 <= j < |later| ==> later[j] in later;
    forall j | 0 <= j < |all|
      ensures PieceStart(start, cuts, j) <= PieceEnd(text, cuts, j) <= |text|
      ensures all[j] == text[PieceStart(start, cuts, j)..PieceEnd(text, cuts, j)]
    {
      if j > 0 {
        assert all[j] == pieces[j - 1] && PieceStart(start, cuts, j) == PieceStart(k + 1, later, j - 1);
        assert PieceEnd(text, cuts, j) == PieceEnd(text, later, j - 1);
      }
    }
  }

  /**
   The arguments are what stands between the commas outside all parentheses,
   stripped, in order, less what is empty then.
   */
  lemma {:induction false} SplitExactly(text: string)
    returns (cuts: seq<nat>, pieces: seq<string>, ks: seq<nat>)
    ensures Rising(cuts) && (forall i: nat :: i in cuts <==> IsCut(text, i)) && PiecesBetween(text, 0, cuts, pieces)
    ensures Rising(ks) && forall j: nat :: j in ks <==> j < |pieces| && Strip(pieces[j]) != ""
    ensures |SplitTopLevel(text)| == |ks|
    ensures forall j :: 0 <= j < |ks| ==> ks[j] < |pieces| && SplitTopLevel(text)[j] == Strip(pieces[ks[j]])
  {
    cuts := PiecesFrom(text, 0, 0);
    assert text[0..] == text && text[..0] == "" && text[0..0] == "";
    pieces := Pieces(text, 0, "");
    ks := FilterStands(Map(pieces, Stripping()), Nonempty());
  }

  // ----- when an argument is a known type

  predicate PlainWords(words: seq<string>) { words != [] && forall i :: 0 <= i < |words| ==> PlainWord(words[i]) }

  lemma {:induction false} PlainWordsSolid(words: seq<string>)
    requires PlainWords(words)
    ensures AllSolid(words) && PlainWords(LowerWords(words)) && (|words| >= 2 ==> PlainWords(words[1..]))
  {
    LowerWordsPlain(words);
  }

  lemma {:induction false} KnownWords(names: set<seq<string>>, words: seq<string>)
    requires SoundNames(names) && PlainWords(words)
    ensures NormalizeType(Join(" ", words)) in NameTexts(names) <==> LowerWords(words) in names
  {
    PlainWordsSolid(words);
    PlainWordsSolid(LowerWords(words));
    TokensOfJoin(words);
    LowerJoin(words);
    NormalizeLowered(words, None, 0);
    assert Join(" ", LowerWords(words)) + (Enclosed(None) + Brackets(0)) == Join(" ", LowerWords(words));
    NameTextsExact(names, LowerWords(words));
  }

  /** The words of an argument behind its mode. */
  function BehindMode(words: seq<string>): seq<string> {
    if |words| >= 2 && Lower(words[0]) in {"in", "out", "inout", "variadic"} then words[1..] else words
  }

  /** The whole, if it is a known type, else what stands behind the first word, if that is. */
  function TypeAmong(rest: seq<string>, whole: bool, behind: bool): Option<string> {
    if whole then Some(Join(" ", rest)) else if |rest| >= 2 && behind then Some(Join(" ", rest[1..])) else None
  }

  lemma {:induction false} TypeOfWords(known: set<string>, words: seq<string>, whole: bool, behind: bool)
    requires PlainWords(words)
    requires whole <==> NormalizeType(Join(" ", BehindMode(words))) in known
    requires behind <==> |BehindMode(words)| >= 2 && NormalizeType(Join(" ", BehindMode(words)[1..])) in known
    ensures ArgumentType(known, Join(" ", words)) == TypeAmong(BehindMode(words), whole, behind)
  {
    PlainWordsSolid(words);
    TokensOfJoin(words);
    assert AfterMode(words) == BehindMode(words);
  }

  /** An argument of plain words is its words behind the mode, or less the first of these, whichever is a known type. */
  lemma {:induction false} ArgumentExactly(names: set<seq<string>>, words: seq<string>)
    requires SoundNames(names) && PlainWords(words)
    ensures var rest := BehindMode(words);
            ArgumentType(NameTexts(names), Join(" ", words)) ==
            TypeAmong(rest, LowerWords(rest) in names, |rest| >= 2 && LowerWords(rest[1..]) in names)
  {
    var rest := BehindMode(words);
    PlainWordsSolid(words);
    PlainWordsSolid(rest);
    KnownWords(names, rest);
    if |rest| >= 2 {
      KnownWords(names, rest[1..]);
    }
    TypeOfWords(NameTexts(names), words, LowerWords(rest) in names, |rest| >= 2 && LowerWords(rest[1..]) in names);
  }

  // ----- array brackets

  lemma {:induction false} TokensSolid(text: string, word: string)
    requires forall i :: 0 <= i < |word| ==> !IsSpace(word[i])
    ensures AllSolid(Tokens(text, word))
  {
    if text != "" {
      if IsSpace(text[0]) {
        TokensSolid(text[1..], "");
      } else {
        TokensSolid(text[1..], word + [text[0]]);
      }
    }
  }

  /** The tokens with `suffix` added: as one more, or glued to the last. */
  ghost predicate Extends(tokens: seq<string>, longer: seq<string>, suffix: string) {
    || longer == tokens + [suffix]
    || (tokens != [] && longer == tokens[..|tokens| - 1] + [tokens[|tokens| - 1] + suffix])
  }

  lemma {:induction false} BracketTokens(text: string, word: string, gap: string)
    requires gap == "" || gap == " "
    ensures Extends(Tokens(text, word), Tokens(text + (gap + "[]"), word), "[]")
  {
    if text == "" {
      assert text + (gap + "[]") == gap + "[]";
      LoneBrackets(word, gap);
    } else {
      assert (text + (gap + "[]"))[1..] == text[1..] + (gap + "[]");
      if IsSpace(text[0]) {
        BracketTokens(text[1..], "", gap);
        ExtendsBehind(if word == "" then [] else [word], Tokens(text[1..], ""),
                      Tokens(text[1..] + (gap + "[]"), ""), "[]");
      } else {
        BracketTokens(text[1..], word + [text[0]], gap);
      }
    }
  }

  lemma {:induction false} LoneBrackets(word: string, gap: string)
    requires gap == "" || gap == " "
    ensures Extends(Tokens("", word), Tokens(gap + "[]", word), "[]")
  {
    TokenRun("[]", "", word);
    TokenRun("[]", "", "");
    assert "[]" + "" == "[]" && "" + "[]" == "[]";
    if gap == " " {
      assert (gap + "[]")[1..] == "[]";
    } else {
      assert gap + "[]" == "[]" && Tokens("[]", word) == [word + "[]"];
      if word == "" {
        assert word + "[]" == "[]" && Tokens("", word) + ["[]"] == ["[]"];
      } else {
        assert [word][..0] + [word + "[]"] == [word + "[]"];
      }
    }
  }

  lemma {:induction false} ExtendsBehind(first: seq<string>, tokens: seq<string>, longer: seq<string>, suffix: string)
    requires Extends(tokens, longer, suffix)
    ensures Extends(first + tokens, first + longer, suffix)
  {
    if longer == tokens + [suffix] {
      assert first + longer == first + tokens + [suffix];
    } else {
      var n := |tokens| - 1;
      assert (first + tokens)[..|first| + n] == first + tokens[..n];
      assert first + longer == (first + tokens)[..|first| + n] + [tokens[n] + suffix];
    }
  }

  /** What does not end in a space, with brackets glued to it or one space behind it. */
  ghost predicate Bracketed(base: string, text: string) {
    text == base + "[]" || text == base + " []"
  }

  lemma {:induction false} BracketsGo(base: string, text: string)
    requires Bracketed(base, text) && (base != "" ==> !IsSpace(base[|base| - 1]))
    ensures StripArrays(text) == StripArrays(base)
  {
    var shorter := text[..|text| - 2];
    assert EndsWith(text, "[]");
    assert shorter == base || shorter == base + " ";
    if shorter == base + " " {
      assert shorter[..|shorter| - 1] == base;
    }
    assert StripRight(shorter) == base;
  }

  lemma {:induction false} JoinExtends(tokens: seq<string>, longer: seq<string>)
    requires Extends(tokens, longer, "[]")
    ensures Bracketed(Join(" ", tokens), Join(" ", longer))
  {
    if longer == tokens + ["[]"] {
      if tokens != [] {
        JoinSnoc(" ", tokens, "[]");
      }
    } else {
      var init, last := tokens[..|tokens| - 1], tokens[|tokens| - 1];
      assert tokens == init + [last];
      if init != [] {
        JoinSnoc(" ", init, last);
        JoinSnoc(" ", init, last + "[]");
      }
    }
  }

  lemma {:induction false} JoinEndsSolid(tokens: seq<string>)
    requires AllSolid(tokens)
    ensures var text := Join(" ", tokens); text != "" ==> !IsSpace(text[|text| - 1])
  {
    if |tokens| > 1 {
      JoinEndsSolid(tokens[1..]);
      SomeJoin(tokens[1..]);
    }
  }

  lemma {:induction false} SomeJoin(tokens: seq<string>)
    requires AllSolid(tokens) && tokens != []
    ensures Join(" ", tokens) != ""
  {
  }

  /** Array brackets never change what a type is, glued to it or apart. */
  lemma {:induction false} BracketsDoNotMatter(text: string, gap: string)
    requires gap == "" || gap == " "
    ensures NormalizeType(text + (gap + "[]")) == NormalizeType(text)
  {
    var tokens, longer := Tokens(text, ""), Tokens(text + (gap + "[]"), "");
    TokensSolid(text, "");
    BracketTokens(text, "", gap);
    JoinExtends(tokens, longer);
    JoinEndsSolid(tokens);
    LowerBracketed(Join(" ", tokens), Join(" ", longer));
    BracketsGo(Lower(Join(" ", tokens)), Lower(Join(" ", longer)));
  }

  lemma {:induction false} LowerBracketed(base: string, text: string)
    requires Bracketed(base, text)
    ensures Bracketed(Lower(base), Lower(text))
    ensures base != "" && !IsSpace(base[|base| - 1]) ==> !IsSpace(Lower(base)[|base| - 1])
  {
    LowerAppend(base, "[]");
    LowerAppend(base, " []");
    assert Lower("[]") == "[]" && Lower(" []") == " []";
    if base != "" {
      LowerKeepsSpaces(base[|base| - 1]);
    }
  }

  /** A length modifier behind a space goes like one that is glued on. */
  lemma {:induction false} SpacedModifierGoes(words: seq<string>, modifier: string)
    requires PlainWords(words) && PlainPiece(modifier)
    ensures NormalizeType(Join(" ", words) + " (" + modifier + ")") == Join(" ", LowerWords(words))
  {
    var last, base := "(" + modifier + ")", Join(" ", LowerWords(words));
    PlainWordsSolid(words);
    assert AllSolid(words + [last]);
    TokensOfJoin(words + [last]);
    JoinSnoc(" ", words, last);
    assert Join(" ", words) + " (" + modifier + ")" == Join(" ", words) + " " + last;
    LowerJoin(words);
    LowerAppend(Join(" ", words) + " ", last);
    LowerAppend(Join(" ", words), " ");
    LowerAppend("(" + modifier, ")");
    LowerAppend("(", modifier);
    assert Lower(" ") == " " && Lower("(") == "(" && Lower(")") == ")";
    ModifierBehindSpace(LowerWords(words), Lower(modifier));
    assert base + " " + ("(" + Lower(modifier) + ")") == base + " (" + Lower(modifier) + ")";
  }

  lemma {:induction false} ModifierBehindSpace(words: seq<string>, modifier: string)
    requires PlainWords(words)
    ensures var base := Join(" ", words); DropModifier(StripArrays(base + " (" + modifier + ")")) == base
  {
    var base := Join(" ", words);
    var text := base + " (" + modifier + ")";
    JoinPlain(words);
    NothingToStrip(text);
    assert text == (base + " ") + ['('] + (modifier + ")");
    BeforeAppend(base + " ", '(', modifier + ")");
    assert text[|text| - 1] == ')' && text[|base| + 1] == '(';
    assert (base + " ")[..|base|] == base;
    StripRightSolid(base);
  }

  // ----- when the whole is read

  /** All arguments are read, each as its type, or none is. */
  lemma {:induction false} TypesExactly(known: set<string>, arguments: seq<string>)
    ensures ArgumentTypes(known, arguments).Some? <==>
            forall a :: a in arguments ==> ArgumentType(known, a).Some?
    ensures var types := ArgumentTypes(known, arguments);
            types.Some? ==> |types.value| == |arguments|
                            && forall j :: 0 <= j < |arguments| ==>
                                 ArgumentType(known, arguments[j]) == Some(types.value[j])
  {
    if arguments != [] {
      InitLast(arguments);
      TypesExactly(known, arguments[..|arguments| - 1]);
    }
  }

  /** The first opening parenthesis stands at `i`, and a closing one at the end. */
  ghost predicate OpensAt(text: string, i: nat) {
    i < |text| - 1 && text[i] == '(' && text[|text| - 1] == ')' && forall k :: 0 <= k < i ==> text[k] != '('
  }

  /** The types the arguments are read as, one by one. */
  ghost predicate ReadAs(known: set<string>, arguments: seq<string>, types: seq<string>) {
    && |types| == |arguments|
    && forall j :: 0 <= j < |arguments| ==> ArgumentType(known, arguments[j]) == Some(types[j])
  }

  /** A name before the first parenthesis, and between it and the last one nothing or known arguments. */
  ghost predicate Reads(known: set<string>, text: string, i: nat, name: string, arguments: string) {
    && OpensAt(text, i) && name == Strip(text[..i]) && name != ""
    && var inner := Strip(text[i + 1..|text| - 1]);
       if inner == "" then arguments == ""
       else exists types :: ReadAs(known, SplitTopLevel(inner), types) && arguments == Join(", ", types)
  }

  lemma {:induction false} FirstAt(text: string, c: char, i: nat)
    requires i < |text| && text[i] == c && forall k :: 0 <= k < i ==> text[k] != c
    ensures Before(text, c) == text[..i] && After(text, c) == text[i + 1..]
  {
    if i > 0 {
      FirstAt(text[1..], c, i - 1);
      assert text[..i] == [text[0]] + text[1..][..i - 1];
    }
  }

  lemma {:induction false} FirstStands(text: string, c: char) returns (i: nat)
    requires c in text
    ensures i < |text| && text[i] == c && forall k :: 0 <= k < i ==> text[k] != c
  {
    if text[0] == c {
      i := 0;
    } else {
      i := FirstStands(text[1..], c);
      i := i + 1;
    }
  }

  lemma {:induction false} ReadUniquely(known: set<string>, arguments: seq<string>, types: seq<string>)
    ensures ReadAs(known, arguments, types) <==> ArgumentTypes(known, arguments) == Some(types)
  {
    TypesExactly(known, arguments);
    if ReadAs(known, arguments, types) {
      forall a | a in arguments
        ensures ArgumentType(known, a).Some?
      {
        var j :| 0 <= j < |arguments| && arguments[j] == a;
      }
      assert ArgumentTypes(known, arguments).value == types;
    }
  }

  lemma {:induction false} ReadsAt(known: set<string>, signature: string, i: nat, name: string, arguments: string)
    requires OpensAt(Strip(signature), i)
    ensures ParseSignature(known, signature) == Success((name, arguments)) <==>
            Reads(known, Strip(signature), i, name, arguments)
  {
    var text := Strip(signature);
    FirstAt(text, '(', i);
    FirstAt(text[..|text| - 1], '(', i);
    assert text[..|text| - 1][i + 1..] == text[i + 1..|text| - 1];
    var inner := Strip(text[i + 1..|text| - 1]);
    forall types
      ensures ReadAs(known, SplitTopLevel(inner), types) <==>
              ArgumentTypes(known, SplitTopLevel(inner)) == Some(types)
    {
      ReadUniquely(known, SplitTopLevel(inner), types);
    }
  }

  /** A signature is read exactly when it has a name and its arguments are known; anything else is refused. */
  lemma {:induction false} ParseExactly(known: set<string>, signature: string, name: string, arguments: string)
    ensures ParseSignature(known, signature) == Success((name, arguments)) <==>
            exists i: nat :: Reads(known, Strip(signature), i, name, arguments)
    ensures ParseSignature(known, signature).Failure? ==>
              ParseSignature(known, signature) == Failure(UnparseableSignature(signature))
  {
    var text := Strip(signature);
    if i: nat :| Reads(known, text, i, name, arguments) {
      ReadsAt(known, signature, i, name, arguments);
    }
    if ParseSignature(known, signature) == Success((name, arguments)) {
      var i := FirstStands(text, '(');
      assert i != |text| - 1;
      ReadsAt(known, signature, i, name, arguments);
    }
  }
}
