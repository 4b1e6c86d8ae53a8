/** What decides a label's place, told from its characters. */
module LabelFacts {
  import opened Options
  import opened Picking
  import opened Strings
  import opened LabelRanking

  // ----- the number ------------------------------------------------------------------------------------

  /** What digits after a point are worth. */
  function Fraction(s: string): real
    requires forall i :: 0 <= i < |s| ==> IsDigit(s[i])
  {
    if s == "" then 0.0 else (DigitValue(s[0]) as real + Fraction(s[1..])) / 10.0
  }

  /** The front digit counts most. */
  lemma {:induction false} FrontDigit(s: string)
    requires AllDigits(s)
    ensures DigitsValue(s) as real == DigitValue(s[0]) as real * PowerOfTen(|s| - 1) + DigitsValue(s[1..]) as real
  {
    hide DigitsValue, PowerOfTen;
    var n := |s| - 1;
    DigitsMore(s);
    TenMore(n);
    if n > 0 {
      var init := s[..n];
      FrontDigit(init);
      assert s[1..][..n - 1] == init[1..];
      DigitsMore(s[1..]);
      FrontStep(DigitsValue(init) as real, DigitValue(s[0]) as real, PowerOfTen(n - 1), DigitsValue(init[1..]) as real);
    } else {
      assert s[..0] == "" && s[1..] == "";
    }
  }

  lemma TenMore(n: nat)
    ensures PowerOfTen(0) == 1.0 && (n > 0 ==> PowerOfTen(n) == PowerOfTen(n - 1) * 10.0)
  {}

  lemma FrontStep(v: real, d: real, p: real, w: real)
    requires v == d * p + w
    ensures v * 10.0 == d * (p * 10.0) + w * 10.0
  {}

  lemma DividesExactly(x: real, y: real, z: real)
    requires z > 0.0 && x == y * z
    ensures x / z == y
  {}

  lemma {:induction false} FractionValue(s: string)
    requires forall i :: 0 <= i < |s| ==> IsDigit(s[i])
    ensures DigitsValue(s) as real == Fraction(s) * PowerOfTen(|s|)
  {
    hide Fraction, DigitsValue, PowerOfTen;
    if s == "" {
      NoFraction();
    } else {
      FrontDigit(s);
      FractionValue(s[1..]);
      FractionFront(s);
      Shifted(DigitsValue(s) as real, Fraction(s), PowerOfTen(|s|),
              DigitValue(s[0]) as real, DigitsValue(s[1..]) as real, Fraction(s[1..]), PowerOfTen(|s| - 1));
    }
  }

  lemma NoFraction()
    ensures DigitsValue("") as real == Fraction("") * PowerOfTen(0) && Fraction("") == 0.0
  {}

  lemma FractionFront(s: string)
    requires AllDigits(s)
    ensures Fraction(s) == (DigitValue(s[0]) as real + Fraction(s[1..])) / 10.0 && PowerOfTen(|s|) == PowerOfTen(|s| - 1) * 10.0
  {}

  lemma Shifted(v: real, f: real, p: real, d: real, w: real, g: real, q: real)
    requires v == d * q + w && w == g * q && f == (d + g) / 10.0 && p == q * 10.0
    ensures v == f * p
  {}

  lemma {:induction false} RunEnds(s: string, from: nat, end: nat)
    requires from <= end <= |s| && forall i :: from <= i < end ==> IsDigit(s[i])
    requires end == |s| || !IsDigit(s[end])
    ensures DigitsEnd(s, from) == end
    decreases end - from
  {
    if from < end {
      RunEnds(s, from + 1, end);
    }
  }

  /** Neither a digit nor a point with a digit behind it. */
  predicate Stops(post: string) {
    post == "" || (!IsDigit(post[0]) && (post[0] == '.' ==> |post| == 1 || !IsDigit(post[1])))
  }

  predicate NoDigitFirst(post: string) {
    post == "" || !IsDigit(post[0])
  }

  lemma WholeAt(s: string, start: nat, end: nat, n: nat)
    requires start <= end <= |s| && s[start..end] == Decimal(n) && Stops(s[end..])
    ensures UnsignedAt(s, start) == Some(n as real) && start < end && IsDigit(s[start])
  {
    hide Decimal, DigitsEnd;
    var d := Decimal(n);
    assert forall i :: start <= i < end ==> s[i] == d[i - start];
    RunEnds(s, start, end);
    DecimalValue(n);
    if end < |s| {
      RunEnds(s, end + 1, DigitsEnd(s, end + 1));
    }
  }

  lemma FractionAt(s: string, start: nat, end: nat, n: nat, frac: string, post: string)
    requires start <= end <= |s| && s[start..end] == Decimal(n) && s[end..] == "." + frac + post
    requires AllDigits(frac) && NoDigitFirst(post)
    ensures UnsignedAt(s, start) == Some(n as real + Fraction(frac)) && start < end && IsDigit(s[start])
  {
    hide Decimal, DigitsEnd, Fraction, PowerOfTen, DigitsValue;
    var d, rest, last := Decimal(n), s[end..], end + 1 + |frac|;
    assert forall i :: start <= i < end ==> s[i] == d[i - start];
    assert forall i :: end <= i < |s| ==> s[i] == rest[i - end];
    assert forall i :: end < i < last ==> s[i] == frac[i - end - 1];
    assert s[end + 1..last] == frac;
    RunEnds(s, start, end);
    RunEnds(s, end + 1, last);
    DecimalValue(n);
    FractionValue(frac);
    DividesExactly(DigitsValue(frac) as real, Fraction(frac), PowerOfTen(|frac|));
  }

  predicate Negative(pre: string) {
    pre != "" && pre[|pre| - 1] == '-'
  }

  /** What is found first is found at the text's end. */
  lemma NumberAfter(pre: string, t: string, value: real)
    requires forall i :: 0 <= i < |pre| ==> !IsDigit(pre[i])
    requires t != "" && IsDigit(t[0]) && UnsignedAt(pre + t, |pre|) == Some(value)
    ensures NumberOf(pre + t) == Some(if Negative(pre) then -value else value)
  {
    hide UnsignedAt;
    if Negative(pre) {
      var before := pre[..|pre| - 1];
      SkipText(before, "-" + t, 0);
      assert pre + t == before + ("-" + t);
    } else {
      SkipText(pre, t, 0);
    }
  }

  /** A number as written: digits, and a point and more digits if it has a fraction. */
  function Written(n: nat, frac: string): string {
    if frac == "" then Decimal(n) else Decimal(n) + ("." + frac)
  }

  lemma Middle(a: string, b: string, c: string)
    ensures (a + (b + c))[|a|..|a| + |b|] == b && (a + (b + c))[|a| + |b|..] == c
  {}

  lemma WholeWritten(n: nat, pre: string, post: string)
    requires Stops(post)
    ensures UnsignedAt(pre + (Decimal(n) + post), |pre|) == Some(n as real)
  {
    hide Decimal, UnsignedAt, Stops;
    Middle(pre, Decimal(n), post);
    WholeAt(pre + (Decimal(n) + post), |pre|, |pre| + |Decimal(n)|, n);
  }

  lemma FractionWritten(n: nat, frac: string, pre: string, post: string)
    requires AllDigits(frac) && NoDigitFirst(post)
    ensures UnsignedAt(pre + (Decimal(n) + ("." + frac + post)), |pre|) == Some(n as real + Fraction(frac))
  {
    hide Decimal, UnsignedAt, Fraction, NoDigitFirst, AllDigits;
    Middle(pre, Decimal(n), "." + frac + post);
    FractionAt(pre + (Decimal(n) + ("." + frac + post)), |pre|, |pre| + |Decimal(n)|, n, frac, post);
  }

  lemma DecimalFirst(n: nat, t: string)
    ensures Decimal(n) + t != "" && IsDigit((Decimal(n) + t)[0])
  {
    var d := Decimal(n);
  }

  lemma WrittenFirst(n: nat, frac: string, pre: string, post: string)
    ensures pre + Written(n, frac) + post == pre + (Decimal(n) + if frac == "" then post else "." + frac + post)
  {
    hide Decimal;
    if frac != "" {
      assert Decimal(n) + ("." + frac) + post == Decimal(n) + ("." + frac + post);
    }
  }

  lemma WholeTells(n: nat, pre: string, post: string)
    requires (forall i :: 0 <= i < |pre| ==> !IsDigit(pre[i])) && Stops(post)
    ensures NumberOf(pre + (Decimal(n) + post)) == Some(if Negative(pre) then -(n as real) else n as real)
  {
    hide UnsignedAt, NumberOf, Decimal, Stops, IsDigit, Negative;
    WholeWritten(n, pre, post);
    DecimalFirst(n, post);
    NumberAfter(pre, Decimal(n) + post, n as real);
  }

  lemma FractionTells(n: nat, frac: string, pre: string, post: string)
    requires (forall i :: 0 <= i < |pre| ==> !IsDigit(pre[i])) && AllDigits(frac) && NoDigitFirst(post)
    ensures var value := n as real + Fraction(frac);
      NumberOf(pre + (Decimal(n) + ("." + frac + post))) == Some(if Negative(pre) then -value else value)
  {
    hide UnsignedAt, NumberOf, Decimal, Fraction, NoDigitFirst, IsDigit, Negative;
    FractionWritten(n, frac, pre, post);
    DecimalFirst(n, "." + frac + post);
    NumberAfter(pre, Decimal(n) + ("." + frac + post), n as real + Fraction(frac));
  }

  /** The first number of a label is its first run of digits with the sign right before it and the fraction
      right behind it, whatever follows. */
  lemma NumberTells(pre: string, n: nat, frac: string, post: string)
    requires forall i :: 0 <= i < |pre| ==> !IsDigit(pre[i])
    requires forall i :: 0 <= i < |frac| ==> IsDigit(frac[i])
    requires if frac == "" then Stops(post) else NoDigitFirst(post)
    ensures var value := n as real + Fraction(frac);
      NumberOf(pre + Written(n, frac) + post) == Some(if Negative(pre) then -value else value)
  {
    hide NumberOf, Written, Decimal, Fraction, Stops, NoDigitFirst, Negative, IsDigit;
    WrittenFirst(n, frac, pre, post);
    if frac == "" {
      NoFraction();
      WholeTells(n, pre, post);
    } else {
      FractionTells(n, frac, pre, post);
    }
  }

  // ----- the tier --------------------------------------------------------------------------------------------

  const SPACES := " \t\n\r\U{0B}\U{0C}"

  /** A capital letter gets the small letter at its place in the alphabet, anything else stays. */
  predicate LowersTo(c: char, low: char) {
    if 'A' <= c <= 'Z' then low as int - 'a' as int == c as int - 'A' as int else low == c
  }

  ghost predicate Lowers(s: string, low: string) {
    |low| == |s| && forall i :: 0 <= i < |s| ==> LowersTo(s[i], low[i])
  }

  lemma LowersToIs(c: char, low: char)
    ensures LowersTo(c, low) <==> low == LowerChar(c)
  {}

  lemma LowerTells(s: string)
    ensures Lowers(s, Lower(s))
  {
    hide LowersTo, LowerChar;
    forall i | 0 <= i < |s| ensures LowersTo(s[i], Lower(s)[i]) {
      LowersToIs(s[i], Lower(s)[i]);
    }
  }

  /** Without the spaces around it. */
  ghost predicate Strips(s: string, bare: string) {
    && (exists pre, post :: s == pre + bare + post && (forall c :: c in pre + post ==> c in SPACES))
    && (bare != "" ==> bare[0] !in SPACES && bare[|bare| - 1] !in SPACES)
  }

  lemma SpacesAre(c: char)
    ensures IsSpace(c) <==> c in SPACES
  {
    assert SPACES == [' ', '\t', '\n', '\r', '\U{0B}', '\U{0C}'];
  }

  lemma {:induction false} StripTells(s: string)
    ensures Strips(s, Strip(s))
  {
    hide Strips, IsSpace;
    if s != "" {
      var n := |s| - 1;
      SpacesAre(s[0]);
      SpacesAre(s[n]);
      if IsSpace(s[0]) {
        StripTells(s[1..]);
        StripsFront(s, Strip(s));
      } else if IsSpace(s[n]) {
        StripTells(s[..n]);
        StripsBack(s, Strip(s));
      } else {
        StripsAround(s, "", s, "");
      }
    } else {
      StripsAround(s, "", "", "");
    }
  }

  lemma StripsFront(s: string, bare: string)
    requires s != "" && s[0] in SPACES && Strips(s[1..], bare)
    ensures Strips(s, bare)
  {
    var pre, post :| s[1..] == pre + bare + post && forall c :: c in pre + post ==> c in SPACES;
    assert s == ([s[0]] + pre) + bare + post;
    assert forall c :: c in ([s[0]] + pre) + post ==> c == s[0] || c in pre + post;
    StripsAround(s, [s[0]] + pre, bare, post);
  }

  lemma StripsBack(s: string, bare: string)
    requires s != "" && s[|s| - 1] in SPACES && Strips(s[..|s| - 1], bare)
    ensures Strips(s, bare)
  {
    var last := s[|s| - 1];
    var pre, post :| s[..|s| - 1] == pre + bare + post && forall c :: c in pre + post ==> c in SPACES;
    assert s == pre + bare + (post + [last]);
    assert forall c :: c in pre + (post + [last]) ==> c == last || c in pre + post;
    StripsAround(s, pre, bare, post + [last]);
  }

  lemma StripsAround(s: string, pre: string, bare: string, post: string)
    requires s == pre + bare + post && forall c :: c in pre + post ==> c in SPACES
    requires bare != "" ==> bare[0] !in SPACES && bare[|bare| - 1] !in SPACES
    ensures Strips(s, bare)
  {}

  /** The label without the spaces around it, in small letters. */
  ghost predicate Folds(value: string, low: string) {
    exists bare :: Strips(value, bare) && Lowers(bare, low)
  }

  ghost predicate StartsWith(low: string, tier: string) {
    exists lowTier :: Lowers(tier, lowTier) && lowTier <= low
  }

  /** The first tier the label starts with, whatever the case and the spaces around it; past them all when
      it starts with none. */
  ghost predicate InTier(value: string, tiers: seq<string>, tier: nat) {
    exists low :: Folds(value, low) && FirstTier(low, tiers, tier)
  }

  ghost predicate FirstTier(low: string, tiers: seq<string>, tier: nat) {
    && tier <= |tiers| && (tier < |tiers| ==> StartsWith(low, tiers[tier]))
    && forall i :: 0 <= i < tier ==> !StartsWith(low, tiers[i])
  }

  lemma LowersOne(s: string, a: string, b: string)
    requires Lowers(s, a) && Lowers(s, b)
    ensures a == b
  {
    hide LowersTo, LowerChar;
    forall i | 0 <= i < |s| ensures a[i] == b[i] {
      LowersToIs(s[i], a[i]);
      LowersToIs(s[i], b[i]);
    }
  }

  lemma StartsLower(low: string, tier: string)
    ensures StartsWith(low, tier) <==> Lower(tier) <= low
  {
    hide Lower, Lowers;
    LowerTells(tier);
    if lowTier :| Lowers(tier, lowTier) && lowTier <= low {
      LowersOne(tier, lowTier, Lower(tier));
    }
  }

  lemma {:induction false} TierFromTells(low: string, tiers: seq<string>, from: nat)
    requires from <= |tiers|
    ensures var t := TierFrom(low, tiers, from);
      from <= t <= |tiers| && (t < |tiers| ==> Lower(tiers[t]) <= low) && forall i :: from <= i < t ==> !(Lower(tiers[i]) <= low)
    decreases |tiers| - from
  {
    if from < |tiers| && !(Lower(tiers[from]) <= low) {
      TierFromTells(low, tiers, from + 1);
    }
  }

  lemma TierTells(value: string, tiers: seq<string>)
    ensures InTier(value, tiers, TierOf(value, tiers))
  {
    hide Strip, Lower, Strips, Lowers, TierFrom, StartsWith;
    var low := Lower(Strip(value));
    StripTells(value);
    LowerTells(Strip(value));
    TierFromTells(low, tiers, 0);
    forall i | 0 <= i < |tiers| ensures StartsWith(low, tiers[i]) <==> Lower(tiers[i]) <= low {
      StartsLower(low, tiers[i]);
    }
    assert Folds(value, low);
  }

  // ----- the order ---------------------------------------------------------------------------------------------

  /** By code points: a proper prefix first, else as the first difference says. */
  ghost predicate Alphabetic(a: string, b: string) {
    a <= b || exists i: nat :: DifferAt(a, b, i) && a[i] < b[i]
  }

  /** A prefix first too, but the greater character first. */
  ghost predicate Backward(a: string, b: string) {
    a <= b || exists i: nat :: DifferAt(a, b, i) && a[i] > b[i]
  }

  lemma PrefixSame(a: string, b: string)
    requires a <= b || b <= a
    ensures forall j: nat :: !DifferAt(a, b, j)
  {}

  lemma StrLeTells(a: string, b: string)
    ensures StrLe(a, b) <==> Alphabetic(a, b)
  {
    hide StrLe;
    if a <= b {
      PrefixFirst(a, b);
    } else if b <= a {
      PrefixFirst(b, a);
      PrefixSame(a, b);
    } else {
      var i := FirstDiffers(a, b);
      DifferenceDecides(a, b, i);
      forall j: nat | DifferAt(a, b, j) ensures j == i {
        DifferOnce(a, b, i, j);
      }
    }
  }

  lemma NegatedLeTells(a: string, b: string)
    ensures NegatedLe(a, b) <==> Backward(a, b)
  {
    hide StrLe, NegatedLe;
    StrLeTotal(a, b);
    NegatedTotal(a, b);
    if a == b {
    } else if a <= b || b <= a {
      NegatedPrefix(a, b);
      NegatedPrefix(b, a);
      PrefixSame(a, b);
    } else {
      LexicalReverses(a, b);
      StrLeTells(b, a);
      var i := FirstDiffers(a, b);
      assert DifferAt(b, a, i);
      forall j: nat | DifferAt(a, b, j) || DifferAt(b, a, j) ensures j == i {
        DifferOnce(a, b, i, j);
      }
    }
  }

  lemma {:induction false} NegatedPrefix(a: string, b: string)
    ensures a <= b ==> NegatedLe(a, b)
  {
    if a != "" && a <= b {
      NegatedPrefix(a[1..], b[1..]);
      assert a == [a[0]] + a[1..] && b == [b[0]] + b[1..];
    }
  }

  /** Numbers come first, the smaller or, descending, the greater before; equal ones, and labels without a
      number, by the label. */
  ghost predicate ByNumber(a: string, b: string, descending: bool) {
    var x, y := NumberOf(a), NumberOf(b);
    if x.Some? && y.Some? && x != y then (if descending then x.value > y.value else x.value < y.value)
    else if x.Some? != y.Some? then x.Some?
    else Alphabetic(a, b)
  }

  /** The order of two labels under every strategy. */
  lemma OrderTells(strategy: Strategy, a: string, b: string)
    ensures match strategy
      case Numeric(descending) => LabelLe(strategy, a, b) <==> ByNumber(a, b, descending)
      case Tiered(tiers, descending) =>
        exists x, y :: InTier(a, tiers, x) && InTier(b, tiers, y) &&
          (LabelLe(strategy, a, b) <==> x < y || (x == y && ByNumber(a, b, descending)))
      case Lexical(descending) => LabelLe(strategy, a, b) <==> if descending then Backward(a, b) else Alphabetic(a, b)
  {
    hide NumberOf, StrLe, NegatedLe, TierOf, InTier, Alphabetic, Backward;
    StrLeTells(a, b);
    NegatedLeTells(a, b);
    if strategy.Tiered? {
      TierTells(a, strategy.tiers);
      TierTells(b, strategy.tiers);
    }
  }

  // ----- the entries --------------------------------------------------------------------------------------------

  ghost function HasLabel(cands: seq<Candidate>, key: string): nat -> bool {
    (i: nat) => i < |cands| && key in cands[i].labels && cands[i].labels[key] != ""
  }

  /** An entry for each candidate with a non-empty label, in the order of the candidates. */
  ghost predicate Enters(cands: seq<Candidate>, n: nat, key: string, entries: seq<Entry>, at: seq<nat>) {
    && Picks(at, n, HasLabel(cands, key)) && |entries| == |at|
    && forall i :: 0 <= i < |at| ==> at[i] < |cands| && EntryOf(cands[at[i]], key, entries[i])
  }

  predicate EntryOf(c: Candidate, key: string, e: Entry) {
    key in c.labels && e == Entry(c.name, c.labels[key], c.score, c.source)
  }

  lemma EntersMore(cands: seq<Candidate>, n: nat, key: string, entries: seq<Entry>, at: seq<nat>, e: Entry)
    requires n < |cands| && Enters(cands, n, key, entries, at)
    requires HasLabel(cands, key)(n) ==> EntryOf(cands[n], key, e)
    ensures if HasLabel(cands, key)(n) then Enters(cands, n + 1, key, entries + [e], at + [n]) else Enters(cands, n + 1, key, entries, at)
  {
    hide Picks, HasLabel, EntryOf;
    PicksMore(at, n, HasLabel(cands, key));
  }

  lemma {:induction false} LabelledTells(cands: seq<Candidate>, n: nat, key: string) returns (at: seq<nat>)
    requires n <= |cands|
    ensures Enters(cands, n, key, Labelled(cands[..n], key), at)
  {
    at := [];
    if n == 0 {
      PicksNone(HasLabel(cands, key));
    } else {
      hide Enters;
      at := LabelledTells(cands, n - 1, key);
      assert cands[..n][..n - 1] == cands[..n - 1];
      var c := cands[n - 1];
      EntersMore(cands, n - 1, key, Labelled(cands[..n - 1], key), at,
                 Entry(c.name, if key in c.labels then c.labels[key] else "", c.score, c.source));
      at := if HasLabel(cands, key)(n - 1) then at + [n - 1] else at;
    }
  }

  /** A baseline is named so by the spec or by a reference row that says so. */
  lemma BaselinesTell(names: set<string>, extras: seq<Extra>, name: string)
    ensures name in Baselines(names, extras) <==>
      name in names || exists i :: 0 <= i < |extras| && extras[i].baseline && extras[i].entry.entrant == name
    ensures |Entries(extras)| == |extras| && forall i :: 0 <= i < |extras| ==> Entries(extras)[i] == extras[i].entry
  {
    if i :| 0 <= i < |extras| && extras[i].baseline && extras[i].entry.entrant == name {
      assert extras[i] in extras;
    }
    if name in Baselines(names, extras) && name !in names {
      var e :| e in extras && e.baseline && e.entry.entrant == name;
    }
  }
}
