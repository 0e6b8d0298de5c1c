/**
 Which open invoices a bank credit pays (scripts/bank_match_suggestions.py): a
 search through singles, withheld singles, pairs and triples inside a window.
 */
module InvoiceSearch {
  import opened Collections

  datatype Invoice = Invoice(number: string, subtotal: real, totalAmount: real)

  const TOLERANCE: real := 100.0

  const RATIO_LABELS: seq<string> := [
    "NET_5%_WHT_7.5%_VAT_WHT", "NET_5%_WHT_7.5%_VAT_1%_STAMP", "NET_5%_WHT_ONLY", "NET_10%_WHT_ONLY"]

  /** The share of the subtotal paid under each withholding pattern. */
  function Ratio(r: nat): real {
    if r == 0 then 0.95 else if r == 1 then 0.94 else if r == 2 then 0.925 else 0.875
  }

  predicate Close(bankAmount: real, expected: real) {
    -TOLERANCE <= bankAmount - expected <= TOLERANCE
  }

  // ----- candidates in search order

  datatype Tier = Gross | Withheld | Pair | Triple

  /**
   One thing the search tries: a single invoice `a`; ratio `a` on invoice `b`; the
   pair `a`, `b`; the triple `a`, `b`, `c`. Unused places are zero.
   */
  datatype Candidate = Candidate(tier: Tier, a: nat, b: nat, c: nat)

  function Rank(tier: Tier): nat {
    match tier
    case Gross => 0
    case Withheld => 1
    case Pair => 2
    case Triple => 3
  }

  predicate Precedes(x: Candidate, y: Candidate) {
    if x.tier != y.tier then Rank(x.tier) < Rank(y.tier)
    else if x.a != y.a then x.a < y.a
    else if x.b != y.b then x.b < y.b
    else x.c < y.c
  }

  /** The window among `n` invoices. */
  predicate InWindow(n: nat, x: Candidate) {
    match x.tier
    case Gross => x.a < n && x.b == 0 && x.c == 0
    case Withheld => x.a < 4 && x.b < n && x.c == 0
    case Pair => x.a < x.b < n && x.b <= x.a + 5 && x.c == 0
    case Triple => x.a < 8 && x.a < x.b < x.c < n && x.b <= x.a + 4 && x.c <= x.b + 3
  }

  function Expected(invoices: seq<Invoice>, x: Candidate): real
    requires InWindow(|invoices|, x)
  {
    match x.tier
    case Gross => invoices[x.a].totalAmount
    case Withheld => invoices[x.b].subtotal * Ratio(x.a)
    case Pair => invoices[x.a].totalAmount + invoices[x.b].totalAmount
    case Triple => invoices[x.a].totalAmount + invoices[x.b].totalAmount + invoices[x.c].totalAmount
  }

  predicate Hits(bankAmount: real, invoices: seq<Invoice>, x: Candidate) {
    InWindow(|invoices|, x) && Close(bankAmount, Expected(invoices, x))
  }

  function Chosen(x: Candidate): seq<nat> {
    match x.tier
    case Gross => [x.a]
    case Withheld => [x.b]
    case Pair => [x.a, x.b]
    case Triple => [x.a, x.b, x.c]
  }

  function Label(x: Candidate): string {
    match x.tier
    case Gross => "EXACT_GROSS"
    case Withheld => if x.a < 4 then RATIO_LABELS[x.a] else ""
    case Pair => "EXACT_GROSS_2_INV"
    case Triple => "EXACT_GROSS_3_INV"
  }

  /** A hit that no other hit precedes. */
  ghost predicate IsFirstHit(bankAmount: real, invoices: seq<Invoice>, x: Candidate) {
    && Hits(bankAmount, invoices, x)
    && forall y :: Hits(bankAmount, invoices, y) && y != x ==> Precedes(x, y)
  }

  ghost predicate NoHitBefore(bankAmount: real, invoices: seq<Invoice>, x: Candidate) {
    forall y :: Hits(bankAmount, invoices, y) ==> !Precedes(y, x)
  }

  ghost predicate NoHit(bankAmount: real, invoices: seq<Invoice>) {
    forall y :: !Hits(bankAmount, invoices, y)
  }

  /** Going on to `next` is sound when `x` misses and nothing in the window lies between them. */
  lemma {:induction false} GoOn(bankAmount: real, invoices: seq<Invoice>, x: Candidate, next: Candidate)
    requires NoHitBefore(bankAmount, invoices, x)
    requires forall y :: InWindow(|invoices|, y) && Precedes(y, next) ==>
               Precedes(y, x) || (y == x && !Hits(bankAmount, invoices, x))
    ensures NoHitBefore(bankAmount, invoices, next)
  {
  }

  lemma {:induction false} FoundFirst(bankAmount: real, invoices: seq<Invoice>, x: Candidate)
    requires NoHitBefore(bankAmount, invoices, x) && Hits(bankAmount, invoices, x)
    ensures IsFirstHit(bankAmount, invoices, x)
  {
  }

  // ----- the search

  method FindSingle(bankAmount: real, invoices: seq<Invoice>) returns (found: Option<Candidate>)
    ensures found.Some? ==> found.value.tier == Gross && IsFirstHit(bankAmount, invoices, found.value)
    ensures found.None? ==> NoHitBefore(bankAmount, invoices, Candidate(Withheld, 0, 0, 0))
  {
    for i := 0 to |invoices|
      invariant NoHitBefore(bankAmount, invoices, Candidate(Gross, i, 0, 0))
    {
      if Close(bankAmount, invoices[i].totalAmount) {
        FoundFirst(bankAmount, invoices, Candidate(Gross, i, 0, 0));
        return Some(Candidate(Gross, i, 0, 0));
      }
      GoOn(bankAmount, invoices, Candidate(Gross, i, 0, 0), Candidate(Gross, i + 1, 0, 0));
    }
    GoOn(bankAmount, invoices, Candidate(Gross, |invoices|, 0, 0), Candidate(Withheld, 0, 0, 0));
    found := None;
  }

  method FindWithheld(bankAmount: real, invoices: seq<Invoice>) returns (found: Option<Candidate>)
    requires NoHitBefore(bankAmount, invoices, Candidate(Withheld, 0, 0, 0))
    ensures found.Some? ==> found.value.tier == Withheld && IsFirstHit(bankAmount, invoices, found.value)
    ensures found.None? ==> NoHitBefore(bankAmount, invoices, Candidate(Pair, 0, 0, 0))
  {
    for r := 0 to 4
      invariant NoHitBefore(bankAmount, invoices, Candidate(Withheld, r, 0, 0))
    {
      for i := 0 to |invoices|
        invariant NoHitBefore(bankAmount, invoices, Candidate(Withheld, r, i, 0))
      {
        if Close(bankAmount, invoices[i].subtotal * Ratio(r)) {
          FoundFirst(bankAmount, invoices, Candidate(Withheld, r, i, 0));
          return Some(Candidate(Withheld, r, i, 0));
        }
        GoOn(bankAmount, invoices, Candidate(Withheld, r, i, 0), Candidate(Withheld, r, i + 1, 0));
      }
      GoOn(bankAmount, invoices, Candidate(Withheld, r, |invoices|, 0), Candidate(Withheld, r + 1, 0, 0));
    }
    GoOn(bankAmount, invoices, Candidate(Withheld, 4, 0, 0), Candidate(Pair, 0, 0, 0));
    found := None;
  }

  function Min(a: nat, b: nat): nat { if a <= b then a else b }

  /** Where `range(start, min(end, n))` ends; an empty range ends where it starts. */
  function RangeEnd(start: nat, end: nat, n: nat): nat {
    if start <= Min(end, n) then Min(end, n) else start
  }

  method FindPair(bankAmount: real, invoices: seq<Invoice>) returns (found: Option<Candidate>)
    requires NoHitBefore(bankAmount, invoices, Candidate(Pair, 0, 0, 0))
    ensures found.Some? ==> found.value.tier == Pair && IsFirstHit(bankAmount, invoices, found.value)
    ensures found.None? ==> NoHitBefore(bankAmount, invoices, Candidate(Triple, 0, 0, 0))
  {
    var n := |invoices|;
    if n >= 2 {
      for i := 0 to n - 1
        invariant NoHitBefore(bankAmount, invoices, Candidate(Pair, i, 0, 0))
      {
        GoOn(bankAmount, invoices, Candidate(Pair, i, 0, 0), Candidate(Pair, i, i + 1, 0));
        for j := i + 1 to Min(i + 6, n)
          invariant NoHitBefore(bankAmount, invoices, Candidate(Pair, i, j, 0))
        {
          if Close(bankAmount, invoices[i].totalAmount + invoices[j].totalAmount) {
            FoundFirst(bankAmount, invoices, Candidate(Pair, i, j, 0));
            return Some(Candidate(Pair, i, j, 0));
          }
          GoOn(bankAmount, invoices, Candidate(Pair, i, j, 0), Candidate(Pair, i, j + 1, 0));
        }
        GoOn(bankAmount, invoices, Candidate(Pair, i, Min(i + 6, n), 0), Candidate(Pair, i + 1, 0, 0));
      }
      GoOn(bankAmount, invoices, Candidate(Pair, n - 1, 0, 0), Candidate(Triple, 0, 0, 0));
    } else {
      GoOn(bankAmount, invoices, Candidate(Pair, 0, 0, 0), Candidate(Triple, 0, 0, 0));
    }
    found := None;
  }

  method FindTriple(bankAmount: real, invoices: seq<Invoice>) returns (found: Option<Candidate>)
    requires NoHitBefore(bankAmount, invoices, Candidate(Triple, 0, 0, 0))
    ensures found.Some? ==> found.value.tier == Triple && IsFirstHit(bankAmount, invoices, found.value)
    ensures found.None? ==> NoHit(bankAmount, invoices)
  {
    var n := |invoices|;
    if n >= 3 {
      for i := 0 to Min(n, 8)
        invariant NoHitBefore(bankAmount, invoices, Candidate(Triple, i, 0, 0))
      {
        GoOn(bankAmount, invoices, Candidate(Triple, i, 0, 0), Candidate(Triple, i, i + 1, 0));
        for j := i + 1 to RangeEnd(i + 1, i + 5, n)
          invariant NoHitBefore(bankAmount, invoices, Candidate(Triple, i, j, 0))
        {
          GoOn(bankAmount, invoices, Candidate(Triple, i, j, 0), Candidate(Triple, i, j, j + 1));
          for k := j + 1 to RangeEnd(j + 1, j + 4, n)
            invariant NoHitBefore(bankAmount, invoices, Candidate(Triple, i, j, k))
          {
            if Close(bankAmount, invoices[i].totalAmount + invoices[j].totalAmount + invoices[k].totalAmount) {
              FoundFirst(bankAmount, invoices, Candidate(Triple, i, j, k));
              return Some(Candidate(Triple, i, j, k));
            }
            GoOn(bankAmount, invoices, Candidate(Triple, i, j, k), Candidate(Triple, i, j, k + 1));
          }
          GoOn(bankAmount, invoices, Candidate(Triple, i, j, RangeEnd(j + 1, j + 4, n)),
               Candidate(Triple, i, j + 1, 0));
        }
        GoOn(bankAmount, invoices, Candidate(Triple, i, RangeEnd(i + 1, i + 5, n), 0), Candidate(Triple, i + 1, 0, 0));
      }
    }
    found := None;
  }

  predicate AllBelow(indices: seq<nat>, n: nat) { forall i :: 0 <= i < |indices| ==> indices[i] < n }

  function Pick(invoices: seq<Invoice>, indices: seq<nat>): seq<Invoice>
    requires AllBelow(indices, |invoices|)
  {
    seq(|indices|, n requires 0 <= n < |indices| => invoices[indices[n]])
  }

  /** The invoices the hit names, under its label. */
  ghost predicate Answers(invoices: seq<Invoice>, hit: Candidate, matched: seq<Invoice>, ratioLabel: string) {
    && AllBelow(Chosen(hit), |invoices|) && matched == Pick(invoices, Chosen(hit)) && ratioLabel == Label(hit)
  }

  /** The first hit in search order, or a label that says there is none. */
  method FindInvoiceMatches(bankAmount: real, invoices: seq<Invoice>)
    returns (matched: seq<Invoice>, ratioLabel: string)
    ensures NoHit(bankAmount, invoices) ==>
              matched == [] && ratioLabel == if invoices == [] then "NO_OPEN_INVOICES" else "NO_AMOUNT_MATCH"
    ensures !NoHit(bankAmount, invoices) ==>
              exists hit :: IsFirstHit(bankAmount, invoices, hit) && Answers(invoices, hit, matched, ratioLabel)
  {
    if invoices == [] {
      return [], "NO_OPEN_INVOICES";
    }
    var found := FindSingle(bankAmount, invoices);
    if found.None? {
      found := FindWithheld(bankAmount, invoices);
    }
    if found.None? {
      found := FindPair(bankAmount, invoices);
    }
    if found.None? {
      found := FindTriple(bankAmount, invoices);
    }
    if found.None? {
      return [], "NO_AMOUNT_MATCH";
    }
    matched, ratioLabel := Pick(invoices, Chosen(found.value)), Label(found.value);
    assert IsFirstHit(bankAmount, invoices, found.value) && Answers(invoices, found.value, matched, ratioLabel);
  }

  // ----- what an answer means

  lemma {:induction false} FirstHitIsUnique(bankAmount: real, invoices: seq<Invoice>, x: Candidate, y: Candidate)
    requires IsFirstHit(bankAmount, invoices, x) && IsFirstHit(bankAmount, invoices, y)
    ensures x == y
  {
  }

  function GrossOf(invoices: seq<Invoice>, indices: seq<nat>): real
    requires AllBelow(indices, |invoices|)
  {
    if indices == [] then 0.0
    else GrossOf(invoices, indices[..|indices| - 1]) + invoices[indices[|indices| - 1]].totalAmount
  }

  ghost predicate Increasing(indices: seq<nat>) { forall i, j :: 0 <= i < j < |indices| ==> indices[i] < indices[j] }

  /** At most a hundred apart. */
  predicate Within(amount: real, expected: real) { expected - 100.0 <= amount <= expected + 100.0 }

  /** Some one to three invoices, in order, whose gross totals add up to the amount. */
  ghost predicate PaysSome(bankAmount: real, invoices: seq<Invoice>, indices: seq<nat>) {
    && 1 <= |indices| <= 3 && Increasing(indices) && AllBelow(indices, |invoices|)
    && Within(bankAmount, GrossOf(invoices, indices))
  }

  lemma {:induction false} GrossOfFew(invoices: seq<Invoice>, indices: seq<nat>)
    requires 1 <= |indices| <= 3 && AllBelow(indices, |invoices|)
    ensures |indices| == 1 ==> GrossOf(invoices, indices) == invoices[indices[0]].totalAmount
    ensures |indices| == 2 ==>
              GrossOf(invoices, indices) == invoices[indices[0]].totalAmount + invoices[indices[1]].totalAmount
    ensures |indices| == 3 ==>
              GrossOf(invoices, indices) ==
              invoices[indices[0]].totalAmount + invoices[indices[1]].totalAmount + invoices[indices[2]].totalAmount
  {
    if |indices| > 1 {
      GrossOfFew(invoices, indices[..|indices| - 1]);
    }
  }

  /** A gross answer names invoices in order whose totals add up. */
  lemma {:induction false} HitPaysInOrder(bankAmount: real, invoices: seq<Invoice>, x: Candidate)
    requires Hits(bankAmount, invoices, x) && x.tier != Withheld
    ensures PaysSome(bankAmount, invoices, Chosen(x))
  {
    GrossOfFew(invoices, Chosen(x));
  }

  /** What a label says about the invoices named under it. */
  ghost predicate LabelHolds(text: string, amount: real, named: seq<Invoice>) {
    || (|named| == 1 && text == "EXACT_GROSS" && Within(amount, named[0].totalAmount))
    || (|named| == 1 && text == "NET_5%_WHT_7.5%_VAT_WHT" && Within(amount, named[0].subtotal * 0.95))
    || (|named| == 1 && text == "NET_5%_WHT_7.5%_VAT_1%_STAMP" && Within(amount, named[0].subtotal * 0.94))
    || (|named| == 1 && text == "NET_5%_WHT_ONLY" && Within(amount, named[0].subtotal * 0.925))
    || (|named| == 1 && text == "NET_10%_WHT_ONLY" && Within(amount, named[0].subtotal * 0.875))
    || (|named| == 2 && text == "EXACT_GROSS_2_INV" && Within(amount, named[0].totalAmount + named[1].totalAmount))
    || (|named| == 3 && text == "EXACT_GROSS_3_INV"
        && Within(amount, named[0].totalAmount + named[1].totalAmount + named[2].totalAmount))
  }

  /** Whatever answer is given, its label holds of the invoices it names. */
  lemma {:induction false} HitMeansItsLabel(bankAmount: real, invoices: seq<Invoice>, x: Candidate)
    requires Hits(bankAmount, invoices, x)
    ensures AllBelow(Chosen(x), |invoices|)
    ensures LabelHolds(Label(x), bankAmount, Pick(invoices, Chosen(x)))
  {
    assert RATIO_LABELS[0] == "NET_5%_WHT_7.5%_VAT_WHT" && RATIO_LABELS[1] == "NET_5%_WHT_7.5%_VAT_1%_STAMP";
    assert RATIO_LABELS[2] == "NET_5%_WHT_ONLY" && RATIO_LABELS[3] == "NET_10%_WHT_ONLY";
  }

  function AsCandidate(indices: seq<nat>): Candidate
    requires 1 <= |indices| <= 3
  {
    if |indices| == 1 then Candidate(Gross, indices[0], 0, 0)
    else if |indices| == 2 then Candidate(Pair, indices[0], indices[1], 0)
    else Candidate(Triple, indices[0], indices[1], indices[2])
  }

  lemma {:induction false} FewAreInWindow(bankAmount: real, invoices: seq<Invoice>, indices: seq<nat>)
    requires |invoices| <= 5 && PaysSome(bankAmount, invoices, indices)
    ensures Hits(bankAmount, invoices, AsCandidate(indices))
  {
    GrossOfFew(invoices, indices);
  }

  /** With at most five open invoices the window leaves nothing out. */
  lemma {:induction false} FewInvoicesAreSearchedFully(bankAmount: real, invoices: seq<Invoice>, indices: seq<nat>)
    requires |invoices| <= 5 && NoHit(bankAmount, invoices)
    ensures !PaysSome(bankAmount, invoices, indices)
  {
    if PaysSome(bankAmount, invoices, indices) {
      FewAreInWindow(bankAmount, invoices, indices);
    }
  }

  /** Small invoices at some places among large ones. */
  function Spread(n: nat, small: set<nat>): seq<Invoice> {
    seq(n, (i: nat) => if i in small then Invoice("small", 1000.0, 1000.0) else Invoice("large", 100000.0, 100000.0))
  }

  lemma {:induction false} SpreadAmounts(n: nat, small: set<nat>, x: Candidate)
    requires InWindow(n, x)
    ensures var e := Expected(Spread(n, small), x);
            match x.tier
            case Gross => e in {1000.0, 100000.0}
            case Withheld => 875.0 <= e <= 950.0 || e >= 87500.0
            case Pair => if x.a in small && x.b in small then e == 2000.0 else e >= 101000.0
            case Triple => if x.a in small && x.b in small && x.c in small then e == 3000.0 else e >= 102000.0
  {
  }

  /** The only payment of 2000 among them is the pair; it is found exactly when its places are at most five apart. */
  lemma {:induction false} PairFoundExactly(n: nat, a: nat, b: nat)
    requires a < b < n
    ensures NoHit(2000.0, Spread(n, {a, b})) <==> b > a + 5
  {
    forall x | InWindow(n, x)
      ensures Hits(2000.0, Spread(n, {a, b}), x) ==> x == Candidate(Pair, a, b, 0)
    {
      SpreadAmounts(n, {a, b}, x);
    }
    if b <= a + 5 {
      SpreadAmounts(n, {a, b}, Candidate(Pair, a, b, 0));
      assert Hits(2000.0, Spread(n, {a, b}), Candidate(Pair, a, b, 0));
    }
  }

  /** A triple is found exactly when it begins among the first eight and its places lie close enough together. */
  lemma {:induction false} TripleFoundExactly(n: nat, a: nat, b: nat, c: nat)
    requires a < b < c < n
    ensures NoHit(3000.0, Spread(n, {a, b, c})) <==> a >= 8 || b > a + 4 || c > b + 3
  {
    forall x | InWindow(n, x)
      ensures Hits(3000.0, Spread(n, {a, b, c}), x) ==> x == Candidate(Triple, a, b, c)
    {
      SpreadAmounts(n, {a, b, c}, x);
    }
    if a < 8 && b <= a + 4 && c <= b + 3 {
      SpreadAmounts(n, {a, b, c}, Candidate(Triple, a, b, c));
      assert Hits(3000.0, Spread(n, {a, b, c}), Candidate(Triple, a, b, c));
    }
  }

  /** From six invoices on, a triple that pays exactly can lie outside the window. */
  lemma {:induction false} SixInvoicesAreNot(n: nat)
    requires n >= 6
    ensures NoHit(3000.0, Spread(n, {0, 1, 5})) && PaysSome(3000.0, Spread(n, {0, 1, 5}), [0, 1, 5])
  {
    TripleFoundExactly(n, 0, 1, 5);
    GrossOfFew(Spread(n, {0, 1, 5}), [0, 1, 5]);
  }

  /** The search rules out every payment of one to three invoices exactly when there are at most five. */
  lemma {:induction false} WindowIsCompleteExactly(n: nat)
    ensures (forall bankAmount, invoices, indices ::
               |invoices| == n && NoHit(bankAmount, invoices) ==> !PaysSome(bankAmount, invoices, indices)) <==> n <= 5
  {
    if n <= 5 {
      forall bankAmount, invoices, indices | |invoices| == n && NoHit(bankAmount, invoices)
        ensures !PaysSome(bankAmount, invoices, indices)
      {
        FewInvoicesAreSearchedFully(bankAmount, invoices, indices);
      }
    } else {
      SixInvoicesAreNot(n);
      assert |Spread(n, {0, 1, 5})| == n;
    }
  }
}
