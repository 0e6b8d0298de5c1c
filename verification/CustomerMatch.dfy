/**
 Which customer a bank line names (scripts/bank_match_suggestions.py): the longest
 name found in the text, else the first acronym hint, else the largest overlap of
 tokens. Tokenizing and the word-boundary search are taken as given.
 */
module CustomerMatch {
  import opened Collections

  datatype Customer = Customer(legalName: string, tokens: set<string>, stripped: string)

  /** An acronym: whether the text mentions it, and the tokens of the name it stands for. */
  datatype Hint = Hint(mentioned: bool, tokens: set<string>)

  datatype Confidence = HIGH | MEDIUM | LOW | NONE

  datatype Line = Line(stripped: string, hints: seq<Hint>, tokens: set<string>)

  predicate StandsAt(text: string, name: string, i: nat) {
    i + |name| <= |text| && text[i..i + |name|] == name
  }

  predicate Contains(text: string, name: string) { exists i :: 0 <= i <= |text| && StandsAt(text, name, i) }

  predicate Named(line: Line, c: Customer) { |c.stripped| >= 8 && Contains(line.stripped, c.stripped) }

  predicate Hinted(hint: Hint, c: Customer) {
    var overlap := |c.tokens * hint.tokens|;
    hint.mentioned && (overlap >= 2 || (overlap >= 1 && |c.tokens| <= 3))
  }

  function Overlap(line: Line, c: Customer): nat { |c.tokens * line.tokens| }

  ghost predicate AnyNamed(line: Line, customers: seq<Customer>) { exists c :: c in customers && Named(line, c) }

  ghost predicate AnyHinted(line: Line, customers: seq<Customer>) {
    exists h, c :: h in line.hints && c in customers && Hinted(h, c)
  }

  /** `customers[i]` is the first of the longest names the text contains. */
  ghost predicate LongestNamed(line: Line, customers: seq<Customer>, i: nat) {
    && i < |customers| && Named(line, customers[i])
    && forall j :: 0 <= j < |customers| && Named(line, customers[j]) ==>
         |customers[j].stripped| <= |customers[i].stripped|
           && (j < i ==> |customers[j].stripped| < |customers[i].stripped|)
  }

  /** Hint `h` is the first to match any customer, and `customers[i]` the first it matches. */
  ghost predicate FirstHinted(line: Line, customers: seq<Customer>, h: nat, i: nat) {
    && h < |line.hints| && i < |customers| && Hinted(line.hints[h], customers[i])
    && (forall j :: 0 <= j < i ==> !Hinted(line.hints[h], customers[j]))
    && (forall g, j :: 0 <= g < h && 0 <= j < |customers| ==> !Hinted(line.hints[g], customers[j]))
  }

  /** `customers[i]` is the first with the largest overlap, and there is an overlap. */
  ghost predicate LargestOverlap(line: Line, customers: seq<Customer>, i: nat) {
    && i < |customers| && Overlap(line, customers[i]) > 0
    && forall j :: 0 <= j < |customers| ==>
         Overlap(line, customers[j]) <= Overlap(line, customers[i])
         && (j < i ==> Overlap(line, customers[j]) < Overlap(line, customers[i]))
  }

  method FindLongestNamed(line: Line, customers: seq<Customer>) returns (best: Option<nat>)
    ensures best.Some? ==> LongestNamed(line, customers, best.value)
    ensures best.None? ==> !AnyNamed(line, customers)
  {
    best := None;
    for i := 0 to |customers|
      invariant best.Some? ==> best.value < i && LongestNamed(line, customers[..i], best.value)
      invariant best.None? ==> forall j :: 0 <= j < i ==> !Named(line, customers[j])
    {
      if Named(line, customers[i]) {
        if best.None? || |customers[i].stripped| > |customers[best.value].stripped| {
          best := Some(i);
        }
      }
    }
    assert customers[..|customers|] == customers;
  }

  method FindHinted(line: Line, customers: seq<Customer>) returns (found: Option<(nat, nat)>)
    ensures found.Some? ==> FirstHinted(line, customers, found.value.0, found.value.1)
    ensures found.None? ==> !AnyHinted(line, customers)
  {
    for h := 0 to |line.hints|
      invariant forall g, j :: 0 <= g < h && 0 <= j < |customers| ==> !Hinted(line.hints[g], customers[j])
    {
      if line.hints[h].mentioned {
        for i := 0 to |customers|
          invariant forall j :: 0 <= j < i ==> !Hinted(line.hints[h], customers[j])
        {
          if Hinted(line.hints[h], customers[i]) {
            return Some((h, i));
          }
        }
      }
    }
    found := None;
  }

  method FindLargestOverlap(line: Line, customers: seq<Customer>) returns (best: Option<nat>)
    ensures best.Some? ==> LargestOverlap(line, customers, best.value)
    ensures best.None? ==> forall c :: c in customers ==> Overlap(line, c) == 0
  {
    best := None;
    var most := 0;
    for i := 0 to |customers|
      invariant best.None? ==> most == 0 && forall j :: 0 <= j < i ==> Overlap(line, customers[j]) == 0
      invariant best.Some? ==> best.value < i && most == Overlap(line, customers[best.value]) > 0
      invariant best.Some? ==> forall j :: 0 <= j < i ==>
                  Overlap(line, customers[j]) <= most && (j < best.value ==> Overlap(line, customers[j]) < most)
    {
      if Overlap(line, customers[i]) > most {
        best, most := Some(i), Overlap(line, customers[i]);
      }
    }
  }

  /** Each stage is reached only when the ones before it found nothing. */
  method FindCustomerMatch(line: Line, customers: seq<Customer>) returns (found: Option<nat>, confidence: Confidence)
    ensures AnyNamed(line, customers) ==>
              found.Some? && LongestNamed(line, customers, found.value) && confidence == HIGH
    ensures !AnyNamed(line, customers) && AnyHinted(line, customers) ==>
              found.Some? && confidence == HIGH && exists h :: FirstHinted(line, customers, h, found.value)
    ensures !AnyNamed(line, customers) && !AnyHinted(line, customers) ==>
              && (found.None? <==> forall c :: c in customers ==> c.tokens * line.tokens == {})
              && (found.None? <==> confidence == NONE)
              && (found.Some? ==> LargestOverlap(line, customers, found.value)
                                  && confidence == var n := Overlap(line, customers[found.value]);
                                                   if n >= 3 then HIGH else if n == 2 then MEDIUM else LOW)
  {
    found := FindLongestNamed(line, customers);
    if found.Some? {
      return found, HIGH;
    }
    var hinted := FindHinted(line, customers);
    if hinted.Some? {
      return Some(hinted.value.1), HIGH;
    }
    SharedTokens(line, customers);
    if line.tokens == {} {
      return None, NONE;
    }
    found := FindLargestOverlap(line, customers);
    if found.None? {
      return None, NONE;
    }
    var overlap := Overlap(line, customers[found.value]);
    confidence := if overlap >= 3 then HIGH else if overlap == 2 then MEDIUM else LOW;
  }

  lemma {:induction false} SharedTokens(line: Line, customers: seq<Customer>)
    ensures forall c :: c in customers ==> (Overlap(line, c) == 0 <==> c.tokens * line.tokens == {})
  {
    forall c | c in customers
      ensures Overlap(line, c) == 0 <==> c.tokens * line.tokens == {}
    {
      assert Overlap(line, c) == 0 ==> c.tokens * line.tokens == {};
    }
  }

  /** A name of at least eight characters counts when the text is something, the name, and something. */
  lemma {:induction false} NamedExactly(line: Line, c: Customer)
    ensures Named(line, c) <==>
            |c.stripped| > 7 && exists before: string, after: string :: line.stripped == before + c.stripped + after
  {
    if Named(line, c) {
      var i :| 0 <= i <= |line.stripped| && StandsAt(line.stripped, c.stripped, i);
      var before, after := line.stripped[..i], line.stripped[i + |c.stripped|..];
      assert line.stripped == before + c.stripped + after;
    }
    if before: string, after: string :| |c.stripped| > 7 && line.stripped == before + c.stripped + after {
      assert StandsAt(line.stripped, c.stripped, |before|);
    }
  }

  /** A mentioned hint takes two tokens of the name, or one if the name has at most three. */
  lemma {:induction false} HintedExactly(hint: Hint, c: Customer)
    ensures Hinted(hint, c) <==>
            && hint.mentioned
            && exists s :: && s in c.tokens && s in hint.tokens
                           && (|c.tokens| <= 3 || exists t :: t in c.tokens && t in hint.tokens && t != s)
  {
    var shared := c.tokens * hint.tokens;
    if |shared| >= 1 {
      var s :| s in shared;
      if |shared| >= 2 {
        assert |shared - {s}| >= 1;
        var t :| t in shared - {s};
        assert t in c.tokens && t in hint.tokens && t != s;
      }
    }
    forall s, t | s in c.tokens && s in hint.tokens && t in c.tokens && t in hint.tokens
      ensures |shared| >= if s == t then 1 else 2
    {
      assert {s, t} <= shared;
      SubsetSize({s, t}, shared);
    }
  }

  lemma {:induction false} SubsetSize<T>(a: set<T>, b: set<T>)
    requires a <= b
    ensures |a| <= |b|
  {
    assert b == a + (b - a);
  }
}
